/** pipe.c: any number of readers, writers, kills and closes on one pipe.  A step is
    what happens between two points where another CPU can interfere: taking the pipe
    lock, one turn of a loop under it, and the way out.  Going to sleep and releasing
    the lock is one step, because sleep holds the process lock across both. */
module Pipe {
  import opened Common

  const PIPESIZE: nat := 512
  const WRAP: nat := 0x1_0000_0000

  type Byte = x: int | 0 <= x < 256

  type Uint = x: int | 0 <= x < WRAP witness 0

  /** Where a thread is, with the arguments and locals of its call; id numbers the
      calls of pipewrite. */
  datatype Pc =
    | Idle
    | WriteLoop(id: nat, src: seq<Byte>, i: nat, added: bool) // lock held; added: bytes put since it was taken
    | AsleepWrite(id: nat, src: seq<Byte>, i: nat)
    | WokenWrite(id: nat, src: seq<Byte>, i: nat)
    | ReadTest(n: nat)                                      // lock held
    | AsleepRead(n: nat)
    | WokenRead(n: nat)
    | ReadCopy(n: nat, start: nat, out: seq<Byte>)          // lock held; out is what the user got

  datatype Thread = Thread(pc: Pc, killed: bool)

  /** A finished call of piperead: what was asked for, the bytes that reached the user,
      which are those taken from position start on, and the result. */
  datatype ReadDone = ReadDone(n: nat, start: nat, out: seq<Byte>, r: int)

  /** struct pipe and the threads; then the history.
      written, taken: all bytes ever put and ever taken
      from:           for each byte put, the call of pipewrite it came from
      calls, results: what each call of pipewrite was given, and what it returned
      gets:           the finished calls of piperead */
  datatype State = State(data: seq<Byte>, nread: Uint, nwrite: Uint, readOpen: bool, writeOpen: bool, lock: Option<nat>,
                         threads: seq<Thread>, written: seq<Byte>, taken: seq<Byte>, from: seq<nat>,
                         calls: seq<seq<Byte>>, results: map<nat, int>, gets: seq<ReadDone>)

  datatype Step =
    | WriteCall(t: nat, src: seq<Byte>)
    | WriteTurn(t: nat, copied: bool)
    | WriteEnd(t: nat)
    | WriteResume(t: nat)
    | ReadCall(t: nat, n: nat)
    | ReadTurn(t: nat)
    | ReadResume(t: nat)
    | CopyTurn(t: nat, copied: bool)
    | Kill(t: nat)
    | CloseRead
    | CloseWrite

  predicate Reading(pc: Pc) { pc.ReadTest? || pc.AsleepRead? || pc.WokenRead? || pc.ReadCopy? }

  predicate Writing(pc: Pc) { pc.WriteLoop? || pc.AsleepWrite? || pc.WokenWrite? }

  predicate Holds(pc: Pc) { pc.WriteLoop? || pc.ReadTest? || pc.ReadCopy? }

  /** An end is closed only when no call on it is in progress, and used only while open. */
  ghost predicate Enabled(s: State, st: Step) {
    && |s.data| == PIPESIZE
    && (!st.CloseRead? && !st.CloseWrite? ==> st.t < |s.threads|)
    && match st
       case WriteCall(t, src) => s.threads[t].pc.Idle? && s.lock.None? && s.writeOpen
       case WriteTurn(t, copied) => s.threads[t].pc.WriteLoop? && s.threads[t].pc.i < |s.threads[t].pc.src|
       case WriteEnd(t) => s.threads[t].pc.WriteLoop? && s.threads[t].pc.i >= |s.threads[t].pc.src|
       case WriteResume(t) => s.threads[t].pc.WokenWrite? && s.lock.None?
       case ReadCall(t, n) => s.threads[t].pc.Idle? && s.lock.None? && s.readOpen
       case ReadTurn(t) => s.threads[t].pc.ReadTest?
       case ReadResume(t) => s.threads[t].pc.WokenRead? && s.lock.None?
       case CopyTurn(t, copied) => s.threads[t].pc.ReadCopy?
       case Kill(t) => true
       case CloseRead => s.readOpen && s.lock.None? && forall t :: 0 <= t < |s.threads| ==> !Reading(s.threads[t].pc)
       case CloseWrite => s.writeOpen && s.lock.None? && forall t :: 0 <= t < |s.threads| ==> !Writing(s.threads[t].pc)
  }

  /** wakeup(&pi->nread) and wakeup(&pi->nwrite). */
  function WakeReader(x: Thread): Thread { if x.pc.AsleepRead? then x.(pc := WokenRead(x.pc.n)) else x }

  function WakeWriter(x: Thread): Thread {
    if x.pc.AsleepWrite? then x.(pc := WokenWrite(x.pc.id, x.pc.src, x.pc.i)) else x
  }

  function WakeReaders(s: State): State {
    s.(threads := seq(|s.threads|, i requires 0 <= i < |s.threads| => WakeReader(s.threads[i])))
  }

  function WakeWriters(s: State): State {
    s.(threads := seq(|s.threads|, i requires 0 <= i < |s.threads| => WakeWriter(s.threads[i])))
  }

  function At(s: State, t: nat, pc: Pc): State
    requires t < |s.threads|
  {
    s.(threads := s.threads[t := s.threads[t].(pc := pc)])
  }

  /** data[nwrite++ % PIPESIZE] = ch, by call id of pipewrite. */
  function Put(s: State, ch: Byte, id: nat): State
    requires |s.data| == PIPESIZE
  {
    s.(data := s.data[s.nwrite % PIPESIZE := ch], nwrite := (s.nwrite + 1) % WRAP, written := s.written + [ch],
       from := s.from + [id])
  }

  /** ch = data[nread++ % PIPESIZE] */
  function Take(s: State): State
    requires |s.data| == PIPESIZE
  {
    s.(nread := (s.nread + 1) % WRAP, taken := s.taken + [s.data[s.nread % PIPESIZE]])
  }

  /** Release the lock and return r from call id of pipewrite. */
  function WriteReturns(s: State, t: nat, id: nat, r: int): State
    requires t < |s.threads|
  {
    At(s, t, Idle).(lock := None, results := s.results[id := r])
  }

  /** Release the lock and return from piperead. */
  function ReadReturns(s: State, t: nat, d: ReadDone): State
    requires t < |s.threads|
  {
    At(s, t, Idle).(lock := None, gets := s.gets + [d])
  }

  function TurnWrite(s: State, t: nat, copied: bool): State
    requires Enabled(s, WriteTurn(t, copied))
  {
    var pc := s.threads[t].pc;
    if !s.readOpen || s.threads[t].killed then WriteReturns(s, t, pc.id, -1)
    else if s.nwrite == (s.nread + PIPESIZE) % WRAP then
      At(WakeReaders(s), t, AsleepWrite(pc.id, pc.src, pc.i)).(lock := None)
    else if !copied then WriteReturns(WakeReaders(s), t, pc.id, pc.i)
    else At(Put(s, pc.src[pc.i], pc.id), t, WriteLoop(pc.id, pc.src, pc.i + 1, true))
  }

  function TurnRead(s: State, t: nat): State
    requires Enabled(s, ReadTurn(t))
  {
    var n := s.threads[t].pc.n;
    if s.nread == s.nwrite && s.writeOpen then
      if s.threads[t].killed then ReadReturns(s, t, ReadDone(n, |s.taken|, [], -1))
      else At(s, t, AsleepRead(n)).(lock := None)
    else At(s, t, ReadCopy(n, |s.taken|, []))
  }

  function TurnCopy(s: State, t: nat, copied: bool): State
    requires Enabled(s, CopyTurn(t, copied))
  {
    var pc := s.threads[t].pc;
    var d := ReadDone(pc.n, pc.start, pc.out, |pc.out|);
    if |pc.out| >= pc.n || s.nread == s.nwrite then ReadReturns(WakeWriters(s), t, d)
    else if !copied then ReadReturns(WakeWriters(Take(s)), t, d)
    else At(Take(s), t, pc.(out := pc.out + [s.data[s.nread % PIPESIZE]]))
  }

  function Next(s: State, st: Step): State
    requires Enabled(s, st)
  {
    match st
    case WriteCall(t, src) =>
      At(s, t, WriteLoop(|s.calls|, src, 0, false)).(lock := Some(t), calls := s.calls + [src])
    case WriteTurn(t, copied) => TurnWrite(s, t, copied)
    case WriteEnd(t) => WriteReturns(WakeReaders(s), t, s.threads[t].pc.id, s.threads[t].pc.i)
    case WriteResume(t) =>
      var pc := s.threads[t].pc;
      At(s, t, WriteLoop(pc.id, pc.src, pc.i, false)).(lock := Some(t))
    case ReadCall(t, n) => At(s, t, ReadTest(n)).(lock := Some(t))
    case ReadTurn(t) => TurnRead(s, t)
    case ReadResume(t) => At(s, t, ReadTest(s.threads[t].pc.n)).(lock := Some(t))
    case CopyTurn(t, copied) => TurnCopy(s, t, copied)
    case Kill(t) => s.(threads := s.threads[t := WakeReader(WakeWriter(s.threads[t])).(killed := true)])
    case CloseRead => WakeWriters(s).(readOpen := false)
    case CloseWrite => WakeReaders(s).(writeOpen := false)
  }

  // ------------------------------------------------------------------- the ring

  function Count(s: State): int { |s.written| - |s.taken| }

  /** The counters count bytes modulo 2^32, and the ring holds, in order, exactly
      the bytes put and not yet taken. */
  ghost predicate RingOk(s: State) {
    && |s.data| == PIPESIZE && |s.taken| <= |s.written| <= |s.taken| + PIPESIZE
    && s.nwrite == |s.written| % WRAP && s.nread == |s.taken| % WRAP
    && (forall k :: 0 <= k < |s.taken| ==> s.taken[k] == s.written[k])
    && (forall k: nat :: |s.taken| <= k < |s.written| ==> s.data[k % PIPESIZE] == s.written[k])
  }

  lemma WrapAdd(r: nat, d: nat)
    ensures (r + d) % WRAP == (r % WRAP + d) % WRAP
  {
  }

  /** 2^32 is a multiple of PIPESIZE, so wrapping keeps the place in the ring. */
  lemma WrapPlace(n: nat)
    ensures n % WRAP % PIPESIZE == n % PIPESIZE
  {
    var q, x := n / WRAP, n % WRAP;
    assert n == (q * 0x80_0000) * PIPESIZE + x;
  }

  lemma WrapCompare(r: nat, w: nat)
    requires r <= w <= r + PIPESIZE
    ensures w % WRAP == (r % WRAP + PIPESIZE) % WRAP <==> w - r == PIPESIZE
    ensures r % WRAP == w % WRAP <==> w == r
  {
    WrapAdd(r, w - r);
    var a, d := r % WRAP, w - r;
    assert (a + d) % WRAP == (if a + d < WRAP then a + d else a + d - WRAP);
    assert (a + PIPESIZE) % WRAP == (if a + PIPESIZE < WRAP then a + PIPESIZE else a + PIPESIZE - WRAP);
  }

  lemma NotSamePlace(k: nat, w: nat)
    requires k < w < k + PIPESIZE
    ensures k % PIPESIZE != w % PIPESIZE
  {
  }

  /** The wrapped counters still tell full from empty. */
  lemma FullAndEmpty(s: State)
    requires RingOk(s)
    ensures s.nwrite == (s.nread + PIPESIZE) % WRAP <==> Count(s) == PIPESIZE
    ensures s.nread == s.nwrite <==> Count(s) == 0
    ensures s.nwrite % PIPESIZE == |s.written| % PIPESIZE && s.nread % PIPESIZE == |s.taken| % PIPESIZE
    ensures 0 <= Count(s) <= PIPESIZE
  {
    WrapCompare(|s.taken|, |s.written|);
    WrapPlace(|s.taken|);
    WrapPlace(|s.written|);
  }

  lemma PutOk(s: State, ch: Byte, id: nat)
    requires RingOk(s) && Count(s) < PIPESIZE
    ensures RingOk(Put(s, ch, id))
  {
    var s' := Put(s, ch, id);
    FullAndEmpty(s);
    var w := |s.written|;
    WrapAdd(w, 1);
    forall k: nat | |s'.taken| <= k < |s'.written|
      ensures s'.data[k % PIPESIZE] == s'.written[k]
    {
      if k < w {
        NotSamePlace(k, w);
      }
    }
  }

  lemma TakeOk(s: State)
    requires RingOk(s) && Count(s) > 0
    ensures RingOk(Take(s)) && s.data[s.nread % PIPESIZE] == s.written[|s.taken|]
  {
    FullAndEmpty(s);
    WrapAdd(|s.taken|, 1);
  }

  // ------------------------------------------------------------------ invariant

  ghost predicate LockOk(s: State) {
    && (forall t :: 0 <= t < |s.threads| ==> (s.lock == Some(t) <==> Holds(s.threads[t].pc)))
    && (s.lock.Some? ==> s.lock.value < |s.threads|)
  }

  /** What a call in progress knows. */
  ghost predicate CallOk(s: State, pc: Pc) {
    && (Reading(pc) ==> s.readOpen) && (Writing(pc) ==> s.writeOpen)
    && (pc.WriteLoop? && pc.added ==> Count(s) > 0)
    && (pc.ReadCopy? ==> pc.start + |pc.out| == |s.taken| && pc.out == s.taken[pc.start..] && |pc.out| <= pc.n)
    && (pc.ReadCopy? && pc.out == [] ==> Count(s) > 0 || !s.writeOpen)
  }

  ghost predicate CallsOk(s: State) {
    forall t :: 0 <= t < |s.threads| ==> CallOk(s, s.threads[t].pc)
  }

  /** A writer sleeps only over a full, readable pipe, unless a reader holding the
      lock is about to wake it. */
  ghost predicate WritersOk(s: State) {
    forall t :: 0 <= t < |s.threads| && s.threads[t].pc.AsleepWrite? ==>
      s.readOpen && (Count(s) == PIPESIZE
                     || (s.lock.Some? && s.lock.value < |s.threads| && s.threads[s.lock.value].pc.ReadCopy?))
  }

  ghost predicate Inv(s: State) {
    RingOk(s) && LockOk(s) && CallsOk(s) && WritersOk(s)
  }

  /** A reader sleeps only over an empty, writable pipe, unless a writer holding the
      lock has put bytes and is about to wake it. */
  ghost predicate ReadersOk(s: State) {
    forall t :: 0 <= t < |s.threads| && s.threads[t].pc.AsleepRead? ==>
      s.writeOpen && (Count(s) == 0 || (s.lock.Some? && s.lock.value < |s.threads|
                                        && s.threads[s.lock.value].pc.WriteLoop? && s.threads[s.lock.value].pc.added))
  }

  /** pipewrite's error return after it has put bytes, with a reader asleep. */
  ghost predicate Stranding(s: State, st: Step)
    requires Enabled(s, st)
  {
    && st.WriteTurn? && s.threads[st.t].pc.added && (!s.readOpen || s.threads[st.t].killed)
    && exists r :: 0 <= r < |s.threads| && s.threads[r].pc.AsleepRead?
  }

  lemma RingKept(s: State, st: Step)
    requires Inv(s) && Enabled(s, st)
    ensures RingOk(Next(s, st))
  {
    hide RingOk, LockOk, CallsOk, WritersOk, ReadersOk, Enabled, Next;
    FullAndEmpty(s);
    RingSame(s, st);
    if st.WriteTurn? && Count(s) < PIPESIZE {
      RingPut(s, st);
    } else if st.CopyTurn? && Count(s) > 0 {
      RingTake(s, st);
    } else {
      RingDepends(s, Next(s, st));
    }
  }

  lemma RingPut(s: State, st: Step)
    requires RingOk(s) && Enabled(s, st) && st.WriteTurn? && Count(s) < PIPESIZE
    ensures RingOk(Next(s, st))
  {
    hide RingOk;
    var pc := s.threads[st.t].pc;
    PutOk(s, pc.src[pc.i], pc.id);
    RingDepends(Put(s, pc.src[pc.i], pc.id), Next(s, st));
    RingDepends(s, Next(s, st));
  }

  lemma RingTake(s: State, st: Step)
    requires RingOk(s) && Enabled(s, st) && st.CopyTurn? && Count(s) > 0
    ensures RingOk(Next(s, st))
  {
    hide RingOk;
    TakeOk(s);
    RingDepends(Take(s), Next(s, st));
    RingDepends(s, Next(s, st));
  }

  lemma RingSame(s: State, st: Step)
    requires Enabled(s, st) && 0 <= Count(s) <= PIPESIZE
    requires s.nwrite == (s.nread + PIPESIZE) % WRAP <==> Count(s) == PIPESIZE
    requires s.nread == s.nwrite <==> Count(s) == 0
    ensures !(st.WriteTurn? && Count(s) < PIPESIZE) && !(st.CopyTurn? && Count(s) > 0) ==> SameRing(s, Next(s, st))
  {
  }

  predicate SameRing(s: State, t: State) {
    t.data == s.data && t.nread == s.nread && t.nwrite == s.nwrite && t.written == s.written && t.taken == s.taken
  }

  lemma RingDepends(s: State, t: State)
    ensures RingOk(s) && SameRing(s, t) ==> RingOk(t)
  {
  }

  predicate Turn(st: Step) { st.WriteTurn? || st.ReadTurn? || st.CopyTurn? }

  lemma LockKept(s: State, st: Step)
    requires LockOk(s) && Enabled(s, st)
    ensures LockOk(Next(s, st))
  {
    hide LockOk, Enabled, Next;
    if Turn(st) {
      TurnKeepsLock(s, st);
    } else {
      CallKeepsLock(s, st);
    }
  }

  lemma TurnKeepsLock(s: State, st: Step)
    requires LockOk(s) && Enabled(s, st) && Turn(st)
    ensures LockOk(Next(s, st))
  {
    if st.WriteTurn? {
      WriteTurnKeepsLock(s, st);
    } else {
      ReadTurnKeepsLock(s, st);
    }
  }

  lemma WriteTurnKeepsLock(s: State, st: Step)
    requires LockOk(s) && Enabled(s, st) && st.WriteTurn?
    ensures LockOk(Next(s, st))
  {
    hide Put, Take;
    PutFrame(s, s.threads[st.t].pc.src[s.threads[st.t].pc.i], s.threads[st.t].pc.id);
  }

  lemma ReadTurnKeepsLock(s: State, st: Step)
    requires LockOk(s) && Enabled(s, st) && (st.ReadTurn? || st.CopyTurn?)
    ensures LockOk(Next(s, st))
  {
    hide Put, Take;
    PutFrame(s, 0, 0);
  }

  lemma PutFrame(s: State, ch: Byte, id: nat)
    requires |s.data| == PIPESIZE
    ensures Put(s, ch, id).threads == s.threads && Take(s).threads == s.threads
    ensures Put(s, ch, id).lock == s.lock && Take(s).lock == s.lock
  {
  }

  lemma CallKeepsLock(s: State, st: Step)
    requires LockOk(s) && Enabled(s, st) && !Turn(st)
    ensures LockOk(Next(s, st))
  {
  }

  lemma CallsKept(s: State, st: Step)
    requires Inv(s) && Enabled(s, st)
    ensures CallsOk(Next(s, st))
  {
    hide RingOk, LockOk, CallsOk, WritersOk, Enabled, Next;
    if Turn(st) {
      FullAndEmpty(s);
      TurnKeepsCalls(s, st);
    } else {
      CallKeepsCalls(s, st);
    }
  }

  lemma TurnKeepsCalls(s: State, st: Step)
    requires LockOk(s) && CallsOk(s) && Enabled(s, st) && Turn(st) && |s.taken| <= |s.written|
    requires s.nread == s.nwrite <==> Count(s) == 0
    ensures CallsOk(Next(s, st))
  {
    hide LockOk, CallsOk, Enabled, Next;
    if st.WriteTurn? {
      WriteTurnKeepsCalls(s, st);
    } else {
      ReadTurnKeepsCalls(s, st);
    }
  }

  lemma WriteTurnKeepsCalls(s: State, st: Step)
    requires LockOk(s) && CallsOk(s) && Enabled(s, st) && st.WriteTurn? && |s.taken| <= |s.written|
    ensures CallsOk(Next(s, st))
  {
    var t, n := st.t, Next(s, st);
    assert Holds(s.threads[t].pc) && s.lock == Some(t) && CallOk(s, s.threads[t].pc);
    forall r | 0 <= r < |n.threads|
      ensures CallOk(n, n.threads[r].pc)
    {
      assert CallOk(s, s.threads[r].pc);
      assert r != t ==> !Holds(s.threads[r].pc);
    }
  }

  lemma ReadTurnKeepsCalls(s: State, st: Step)
    requires LockOk(s) && CallsOk(s) && Enabled(s, st) && (st.ReadTurn? || st.CopyTurn?) && |s.taken| <= |s.written|
    requires s.nread == s.nwrite <==> Count(s) == 0
    ensures CallsOk(Next(s, st))
  {
    var t, n := st.t, Next(s, st);
    assert Holds(s.threads[t].pc) && s.lock == Some(t) && CallOk(s, s.threads[t].pc);
    forall r | 0 <= r < |n.threads|
      ensures CallOk(n, n.threads[r].pc)
    {
      assert CallOk(s, s.threads[r].pc);
      assert r != t ==> !Holds(s.threads[r].pc);
    }
  }

  lemma CallKeepsCalls(s: State, st: Step)
    requires CallsOk(s) && Enabled(s, st) && !Turn(st)
    ensures CallsOk(Next(s, st))
  {
  }

  lemma WritersKept(s: State, st: Step)
    requires Inv(s) && Enabled(s, st)
    ensures WritersOk(Next(s, st))
  {
    hide RingOk, LockOk, CallsOk, WritersOk, Enabled, Next;
    if Turn(st) {
      FullAndEmpty(s);
      TurnKeepsWriters(s, st);
    } else {
      CallKeepsWriters(s, st);
    }
  }

  lemma TurnKeepsWriters(s: State, st: Step)
    requires LockOk(s) && WritersOk(s) && Enabled(s, st) && Turn(st) && Count(s) >= 0
    requires s.nwrite == (s.nread + PIPESIZE) % WRAP <==> Count(s) == PIPESIZE
    requires s.nread == s.nwrite <==> Count(s) == 0
    ensures WritersOk(Next(s, st))
  {
    hide LockOk, WritersOk, Enabled, Next;
    if st.WriteTurn? {
      WriteTurnKeepsWriters(s, st);
    } else {
      ReadTurnKeepsWriters(s, st);
    }
  }

  lemma WriteTurnKeepsWriters(s: State, st: Step)
    requires LockOk(s) && WritersOk(s) && Enabled(s, st) && st.WriteTurn?
    requires s.nwrite == (s.nread + PIPESIZE) % WRAP <==> Count(s) == PIPESIZE
    ensures WritersOk(Next(s, st))
  {
    assert Holds(s.threads[st.t].pc) && s.lock == Some(st.t);
  }

  lemma ReadTurnKeepsWriters(s: State, st: Step)
    requires LockOk(s) && WritersOk(s) && Enabled(s, st) && (st.ReadTurn? || st.CopyTurn?) && Count(s) >= 0
    requires s.nread == s.nwrite <==> Count(s) == 0
    ensures WritersOk(Next(s, st))
  {
    assert Holds(s.threads[st.t].pc) && s.lock == Some(st.t);
  }

  lemma CallKeepsWriters(s: State, st: Step)
    requires LockOk(s) && WritersOk(s) && Enabled(s, st) && !Turn(st)
    ensures WritersOk(Next(s, st))
  {
  }

  /** A step keeps the rule for sleeping readers exactly when it does not strand one. */
  lemma ReadersKept(s: State, st: Step)
    requires Inv(s) && ReadersOk(s) && Enabled(s, st)
    ensures ReadersOk(Next(s, st)) <==> !Stranding(s, st)
  {
    if Stranding(s, st) {
      var r :| 0 <= r < |s.threads| && s.threads[r].pc.AsleepRead?;
      assert CallOk(s, s.threads[st.t].pc);
      assert Next(s, st).threads[r].pc.AsleepRead?;
    } else {
      ReadersStay(s, st);
    }
  }

  lemma ReadersStay(s: State, st: Step)
    requires Inv(s) && ReadersOk(s) && Enabled(s, st) && !Stranding(s, st)
    ensures ReadersOk(Next(s, st))
  {
    hide RingOk, LockOk, CallsOk, WritersOk, Enabled, Next, Stranding;
    if Turn(st) {
      TurnKeepsReaders(s, st);
    } else {
      CallKeepsReaders(s, st);
    }
  }

  lemma TurnKeepsReaders(s: State, st: Step)
    requires RingOk(s) && LockOk(s) && ReadersOk(s) && Enabled(s, st) && Turn(st) && !Stranding(s, st)
    ensures ReadersOk(Next(s, st))
  {
    FullAndEmpty(s);
    hide RingOk;
    if st.WriteTurn? {
      WriteTurnKeepsReaders(s, st);
    } else {
      ReadTurnKeepsReaders(s, st);
    }
  }

  lemma WriteTurnKeepsReaders(s: State, st: Step)
    requires LockOk(s) && ReadersOk(s) && Enabled(s, st) && st.WriteTurn? && !Stranding(s, st)
    requires s.nread == s.nwrite <==> Count(s) == 0
    ensures ReadersOk(Next(s, st))
  {
    assert Holds(s.threads[st.t].pc) && s.lock == Some(st.t);
  }

  lemma ReadTurnKeepsReaders(s: State, st: Step)
    requires LockOk(s) && ReadersOk(s) && Enabled(s, st) && (st.ReadTurn? || st.CopyTurn?) && Count(s) >= 0
    requires s.nread == s.nwrite <==> Count(s) == 0
    ensures ReadersOk(Next(s, st))
  {
    assert Holds(s.threads[st.t].pc) && s.lock == Some(st.t);
  }

  lemma CallKeepsReaders(s: State, st: Step)
    requires LockOk(s) && ReadersOk(s) && Enabled(s, st) && !Turn(st)
    ensures ReadersOk(Next(s, st))
  {
  }

  lemma StepKeepsInv(s: State, st: Step)
    requires Inv(s) && Enabled(s, st)
    ensures Inv(Next(s, st))
  {
    hide RingOk, LockOk, CallsOk, WritersOk, Enabled, Next;
    RingKept(s, st);
    LockKept(s, st);
    CallsKept(s, st);
    WritersKept(s, st);
  }

  // ------------------------------------------------------------------ whole runs

  /** pipealloc: empty, open at both ends, nobody in a call. */
  ghost predicate Initial(s: State) {
    && |s.data| == PIPESIZE && s.nread == 0 && s.nwrite == 0 && s.readOpen && s.writeOpen && s.lock.None?
    && s.written == [] && s.taken == [] && s.from == [] && s.calls == [] && s.results == map[] && s.gets == []
    && forall t :: 0 <= t < |s.threads| ==> s.threads[t].pc.Idle?
  }

  ghost predicate IsRun(states: seq<State>, steps: seq<Step>) {
    && |states| == |steps| + 1 && Initial(states[0])
    && forall i :: 0 <= i < |steps| ==> Enabled(states[i], steps[i]) && states[i + 1] == Next(states[i], steps[i])
  }

  lemma {:induction false} RunKeepsInv(states: seq<State>, steps: seq<Step>, n: nat)
    requires IsRun(states, steps) && n < |states|
    ensures Inv(states[n])
    ensures (forall i :: 0 <= i < n ==> !Stranding(states[i], steps[i])) ==> ReadersOk(states[n])
  {
    hide Next, Enabled, Stranding;
    if n == 0 {
    } else {
      hide Inv, ReadersOk;
      RunKeepsInv(states, steps, n - 1);
      StepKeepsInv(states[n - 1], steps[n - 1]);
      if ReadersOk(states[n - 1]) {
        ReadersKept(states[n - 1], steps[n - 1]);
      }
    }
  }

  /** First in, first out, over every run: what has been taken is a prefix of what
      has been put, at most PIPESIZE bytes are under way, the ring holds them in
      order although the counters wrap, and a reader gets consecutive bytes. */
  lemma FirstInFirstOut(states: seq<State>, steps: seq<Step>, n: nat)
    requires IsRun(states, steps) && n < |states|
    ensures var s := states[n];
            && s.taken <= s.written && 0 <= |s.written| - |s.taken| <= PIPESIZE && |s.data| == PIPESIZE
            && (forall k: nat :: |s.taken| <= k < |s.written| ==> s.data[k % PIPESIZE] == s.written[k])
            && (forall t :: 0 <= t < |s.threads| && s.threads[t].pc.ReadCopy? ==>
                  s.threads[t].pc.start <= |s.taken| && s.threads[t].pc.out == s.taken[s.threads[t].pc.start..])
  {
    RunKeepsInv(states, steps, n);
    hide IsRun, Next;
    var s := states[n];
    assert s.taken == s.written[..|s.taken|];
    forall t | 0 <= t < |s.threads| && s.threads[t].pc.ReadCopy?
      ensures s.threads[t].pc.start <= |s.taken| && s.threads[t].pc.out == s.taken[s.threads[t].pc.start..]
    {
      assert CallOk(s, s.threads[t].pc);
    }
  }

  /** No lost wakeup for writers: with the lock free, an asleep writer means a full,
      readable pipe. */
  lemma AsleepWriterMeansFull(states: seq<State>, steps: seq<Step>, n: nat, t: nat)
    requires IsRun(states, steps) && n < |states| && t < |states[n].threads|
    requires states[n].lock.None? && states[n].threads[t].pc.AsleepWrite?
    ensures states[n].readOpen && |states[n].written| == |states[n].taken| + PIPESIZE
  {
    RunKeepsInv(states, steps, n);
  }

  /** And for readers, as long as no step of the run strands one. */
  lemma AsleepReaderMeansEmpty(states: seq<State>, steps: seq<Step>, n: nat, t: nat)
    requires IsRun(states, steps) && n < |states| && t < |states[n].threads|
    requires states[n].lock.None? && states[n].threads[t].pc.AsleepRead?
    requires forall i :: 0 <= i < n ==> !Stranding(states[i], steps[i])
    ensures states[n].writeOpen && states[n].written == states[n].taken
  {
    RunKeepsInv(states, steps, n);
    assert states[n].taken == states[n].written[..|states[n].taken|];
  }

  function Start(data: seq<Byte>): State {
    State(data, 0, 0, true, true, None, [Thread(Idle, false), Thread(Idle, false)], [], [], [], [], map[], [])
  }

  /** Such a step exists: a reader sleeps on the empty pipe, a writer puts one byte of
      two, is killed, and returns without waking the reader. */
  lemma StrandedReader(data: seq<Byte>) returns (states: seq<State>, steps: seq<Step>)
    requires |data| == PIPESIZE
    ensures IsRun(states, steps) && |steps| == 6 && Enabled(states[5], steps[5]) && Stranding(states[5], steps[5])
    ensures states[6].lock.None? && |states[6].threads| == 2 && states[6].threads[0].pc == AsleepRead(1)
    ensures states[6].written == [7] && states[6].taken == []
  {
    hide Next, Enabled;
    states := seq(7, k requires 0 <= k => Stage(data, k));
    steps := [ReadCall(0, 1), ReadTurn(0), WriteCall(1, [7, 8]), WriteTurn(1, true), Kill(1), WriteTurn(1, true)];
    ReaderSleeps(data);
    WriterLeaves(data);
    assert Stage(data, 5).threads[0].pc.AsleepRead?;
  }

  /** The states of that run. */
  function Stage(data: seq<Byte>, k: nat): State
    requires |data| == PIPESIZE
  {
    var s, r, w := Start(data), Thread(AsleepRead(1), false), Thread(Idle, false);
    if k == 0 then s
    else if k == 1 then s.(threads := [Thread(ReadTest(1), false), w], lock := Some(0))
    else if k == 2 then s.(threads := [r, w])
    else
      var c := s.(calls := [[7, 8]], lock := Some(1));
      if k == 3 then c.(threads := [r, Thread(WriteLoop(0, [7, 8], 0, false), false)])
      else
        var p := c.(data := data[0 := 7], nwrite := 1, written := [7], from := [0]);
        if k < 6 then p.(threads := [r, Thread(WriteLoop(0, [7, 8], 1, true), k == 5)])
        else p.(threads := [r, Thread(Idle, true)], lock := None, results := map[0 := -1])
  }

  lemma ReaderSleeps(data: seq<Byte>)
    requires |data| == PIPESIZE
    ensures Enabled(Stage(data, 0), ReadCall(0, 1)) && Stage(data, 1) == Next(Stage(data, 0), ReadCall(0, 1))
    ensures Enabled(Stage(data, 1), ReadTurn(0)) && Stage(data, 2) == Next(Stage(data, 1), ReadTurn(0))
    ensures Enabled(Stage(data, 2), WriteCall(1, [7, 8]))
    ensures Stage(data, 3) == Next(Stage(data, 2), WriteCall(1, [7, 8]))
  {
  }

  lemma WriterLeaves(data: seq<Byte>)
    requires |data| == PIPESIZE
    ensures Enabled(Stage(data, 3), WriteTurn(1, true)) && Stage(data, 4) == Next(Stage(data, 3), WriteTurn(1, true))
    ensures Enabled(Stage(data, 4), Kill(1)) && Stage(data, 5) == Next(Stage(data, 4), Kill(1))
    ensures Enabled(Stage(data, 5), WriteTurn(1, true)) && Stage(data, 6) == Next(Stage(data, 5), WriteTurn(1, true))
  {
  }
}
