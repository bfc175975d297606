/** What the callers of pipe.c get: the bytes a call of pipewrite puts are its source,
    and a call ends for the reasons the code gives, told by the bytes under way rather
    than by the wrapped counters. */
module PipeCalls {
  import opened Common
  import opened Pipe

  // --------------------------------------------------------- the bytes of a call

  /** The bytes that call c put, in order. */
  ghost function BytesOf(written: seq<Byte>, from: seq<nat>, c: nat): seq<Byte>
    requires |from| == |written|
  {
    if written == [] then [] else
      var n := |written| - 1;
      BytesOf(written[..n], from[..n], c) + (if from[n] == c then [written[n]] else [])
  }

  lemma PutBytes(w: seq<Byte>, f: seq<nat>, ch: Byte, id: nat, c: nat)
    requires |f| == |w|
    ensures BytesOf(w + [ch], f + [id], c) == BytesOf(w, f, c) + (if id == c then [ch] else [])
  {
    assert (w + [ch])[..|w|] == w && (f + [id])[..|w|] == f;
  }

  lemma {:induction false} NoBytes(w: seq<Byte>, f: seq<nat>, c: nat)
    requires |f| == |w| && c !in f
    ensures BytesOf(w, f, c) == []
  {
    if w != [] {
      NoBytes(w[..|w| - 1], f[..|w| - 1], c);
    }
  }

  // ------------------------------------------------------------------ the ledger

  /** A call of pipewrite in progress: its number, its source, and how far it is. */
  datatype Part = Part(id: nat, src: seq<Byte>, i: nat)

  function PartOf(pc: Pc): Option<Part> {
    if Writing(pc) then Some(Part(pc.id, pc.src, pc.i)) else None
  }

  function Parts(s: State): seq<Option<Part>> {
    seq(|s.threads|, t requires 0 <= t < |s.threads| => PartOf(s.threads[t].pc))
  }

  datatype Ledger = Ledger(written: seq<Byte>, from: seq<nat>, calls: seq<seq<Byte>>, results: map<nat, int>,
                           parts: seq<Option<Part>>)

  function LedgerOf(s: State): Ledger {
    Ledger(s.written, s.from, s.calls, s.results, Parts(s))
  }

  ghost predicate PartOk(g: Ledger, p: Part)
    requires |g.from| == |g.written|
  {
    && p.id < |g.calls| && p.src == g.calls[p.id] && p.i <= |p.src| && p.id !in g.results
    && BytesOf(g.written, g.from, p.id) == p.src[..p.i]
  }

  ghost predicate ResultOk(g: Ledger, c: nat)
    requires |g.from| == |g.written| && c in g.results
  {
    && c < |g.calls| && -1 <= g.results[c] <= |g.calls[c]|
    && BytesOf(g.written, g.from, c) <= g.calls[c]
    && (g.results[c] >= 0 ==> BytesOf(g.written, g.from, c) == g.calls[c][..g.results[c]])
  }

  /** Each byte comes from a call; each call is finished or in progress, in one
      thread, and the bytes it put are the first ones of its source. */
  ghost predicate LedgerOk(g: Ledger) {
    && |g.from| == |g.written|
    && (forall k :: 0 <= k < |g.from| ==> g.from[k] < |g.calls|)
    && (forall t :: 0 <= t < |g.parts| && g.parts[t].Some? ==> PartOk(g, g.parts[t].value))
    && (forall t, u :: 0 <= t < u < |g.parts| && g.parts[t].Some? && g.parts[u].Some? ==>
          g.parts[t].value.id != g.parts[u].value.id)
    && (forall c :: c in g.results ==> ResultOk(g, c))
    && (forall c: nat :: c < |g.calls| && c !in g.results ==> InProgress(g.parts, c))
  }

  ghost predicate InProgress(parts: seq<Option<Part>>, c: nat) {
    exists t :: 0 <= t < |parts| && parts[t].Some? && parts[t].value.id == c
  }

  // ---------------------------------------------------- how a step changes it

  datatype Change = Same | Called(t: nat, src: seq<Byte>) | Added(t: nat) | Ended(t: nat, r: int)

  ghost predicate Allowed(g: Ledger, e: Change) {
    match e
    case Same => true
    case Called(t, _) => t < |g.parts| && g.parts[t].None?
    case Added(t) => t < |g.parts| && g.parts[t].Some? && g.parts[t].value.i < |g.parts[t].value.src|
    case Ended(t, r) => t < |g.parts| && g.parts[t].Some? && (r == -1 || r == g.parts[t].value.i)
  }

  ghost function Changed(g: Ledger, e: Change): Ledger
    requires Allowed(g, e)
  {
    match e
    case Same => g
    case Called(t, src) => g.(calls := g.calls + [src], parts := g.parts[t := Some(Part(|g.calls|, src, 0))])
    case Added(t) =>
      var p := g.parts[t].value;
      g.(written := g.written + [p.src[p.i]], from := g.from + [p.id], parts := g.parts[t := Some(p.(i := p.i + 1))])
    case Ended(t, r) => g.(results := g.results[g.parts[t].value.id := r], parts := g.parts[t := None])
  }

  lemma CalledOk(g: Ledger, e: Change)
    requires LedgerOk(g) && Allowed(g, e) && e.Called?
    ensures LedgerOk(Changed(g, e))
  {
    var g', c := Changed(g, e), |g.calls|;
    hide BytesOf;
    NoBytes(g.written, g.from, c);
    assert PartOk(g', g'.parts[e.t].value);
    forall d: nat | d < |g'.calls| && d !in g'.results
      ensures InProgress(g'.parts, d)
    {
      if d == c {
        assert g'.parts[e.t].value.id == c;
      } else {
        var t :| 0 <= t < |g.parts| && g.parts[t].Some? && g.parts[t].value.id == d;
        assert g'.parts[t] == g.parts[t];
      }
    }
  }

  lemma AddedOk(g: Ledger, e: Change)
    requires LedgerOk(g) && Allowed(g, e) && e.Added?
    ensures LedgerOk(Changed(g, e))
  {
    var g', p := Changed(g, e), g.parts[e.t].value;
    assert PartOk(g, p);
    forall c
      ensures BytesOf(g'.written, g'.from, c)
              == BytesOf(g.written, g.from, c) + (if c == p.id then [p.src[p.i]] else [])
    {
      PutBytes(g.written, g.from, p.src[p.i], p.id, c);
    }
    hide BytesOf;
    assert p.src[..p.i] + [p.src[p.i]] == p.src[..p.i + 1];
    forall t | 0 <= t < |g'.parts| && g'.parts[t].Some?
      ensures PartOk(g', g'.parts[t].value)
    {
      assert t != e.t ==> g.parts[t].value.id != p.id && PartOk(g, g.parts[t].value);
    }
    forall c | c in g'.results
      ensures ResultOk(g', c)
    {
      assert ResultOk(g, c) && c != p.id;
    }
    SameInProgress(g.parts, g'.parts, e.t);
  }

  lemma SameInProgress(a: seq<Option<Part>>, b: seq<Option<Part>>, t: nat)
    requires t < |a| && a[t].Some? && |b| == |a| && b == a[t := b[t]] && b[t].Some? && b[t].value.id == a[t].value.id
    ensures forall c :: InProgress(a, c) ==> InProgress(b, c)
  {
    forall c | InProgress(a, c)
      ensures InProgress(b, c)
    {
      var u :| 0 <= u < |a| && a[u].Some? && a[u].value.id == c;
      assert b[u].Some? && b[u].value.id == c;
    }
  }

  lemma EndedOk(g: Ledger, e: Change)
    requires LedgerOk(g) && Allowed(g, e) && e.Ended?
    ensures LedgerOk(Changed(g, e))
  {
    var g', p := Changed(g, e), g.parts[e.t].value;
    hide BytesOf;
    assert PartOk(g, p);
    forall t | 0 <= t < |g'.parts| && g'.parts[t].Some?
      ensures PartOk(g', g'.parts[t].value)
    {
      assert g.parts[t].value.id != p.id && PartOk(g, g.parts[t].value);
    }
    forall c | c in g'.results
      ensures ResultOk(g', c)
    {
      assert c != p.id ==> ResultOk(g, c);
    }
    forall c: nat | c < |g'.calls| && c !in g'.results
      ensures InProgress(g'.parts, c)
    {
      var t :| 0 <= t < |g.parts| && g.parts[t].Some? && g.parts[t].value.id == c;
      assert g'.parts[t] == g.parts[t];
    }
  }

  lemma ChangeOk(g: Ledger, e: Change)
    requires LedgerOk(g) && Allowed(g, e)
    ensures LedgerOk(Changed(g, e))
  {
    hide LedgerOk;
    match e
    case Same =>
    case Called(_, _) => CalledOk(g, e);
    case Added(_) => AddedOk(g, e);
    case Ended(_, _) => EndedOk(g, e);
  }

  /** What a step does to the ledger. */
  ghost function ChangeBy(s: State, st: Step): Change
    requires Enabled(s, st)
  {
    match st
    case WriteCall(t, src) => Called(t, src)
    case WriteTurn(t, copied) =>
      if !s.readOpen || s.threads[t].killed then Ended(t, -1)
      else if s.nwrite == (s.nread + PIPESIZE) % WRAP then Same
      else if copied then Added(t)
      else Ended(t, s.threads[t].pc.i)
    case WriteEnd(t) => Ended(t, s.threads[t].pc.i)
    case _ => Same
  }

  lemma PartsWake(s: State)
    ensures Parts(WakeReaders(s)) == Parts(s) && Parts(WakeWriters(s)) == Parts(s)
  {
  }

  lemma StepChanges(s: State, st: Step)
    requires Enabled(s, st)
    ensures Allowed(LedgerOf(s), ChangeBy(s, st)) && LedgerOf(Next(s, st)) == Changed(LedgerOf(s), ChangeBy(s, st))
  {
    hide LedgerOf, Changed, ChangeBy, Next, Enabled;
    if st.WriteTurn? {
      WriteTurnChanges(s, st);
    } else if st.ReadTurn? || st.CopyTurn? {
      ReadTurnChanges(s, st);
    } else {
      OtherChanges(s, st);
    }
  }

  lemma WriteTurnChanges(s: State, st: Step)
    requires Enabled(s, st) && st.WriteTurn?
    ensures Allowed(LedgerOf(s), ChangeBy(s, st)) && LedgerOf(Next(s, st)) == Changed(LedgerOf(s), ChangeBy(s, st))
  {
    PartsWake(s);
    assert Parts(Next(s, st)) == Changed(LedgerOf(s), ChangeBy(s, st)).parts;
  }

  lemma ReadTurnChanges(s: State, st: Step)
    requires Enabled(s, st) && (st.ReadTurn? || st.CopyTurn?)
    ensures Allowed(LedgerOf(s), ChangeBy(s, st)) && LedgerOf(Next(s, st)) == Changed(LedgerOf(s), ChangeBy(s, st))
  {
    assert Parts(Next(s, st)) == Parts(s);
  }

  lemma OtherChanges(s: State, st: Step)
    requires Enabled(s, st) && !st.WriteTurn? && !st.ReadTurn? && !st.CopyTurn?
    ensures Allowed(LedgerOf(s), ChangeBy(s, st)) && LedgerOf(Next(s, st)) == Changed(LedgerOf(s), ChangeBy(s, st))
  {
    hide Put;
    assert Parts(Next(s, st)) == Changed(LedgerOf(s), ChangeBy(s, st)).parts;
  }

  lemma {:induction false} RunKeepsLedger(states: seq<State>, steps: seq<Step>, n: nat)
    requires IsRun(states, steps) && n < |states|
    ensures LedgerOk(LedgerOf(states[n]))
  {
    hide Next, Enabled;
    if n > 0 {
      hide LedgerOk, LedgerOf, ChangeBy, Changed;
      RunKeepsLedger(states, steps, n - 1);
      StepChanges(states[n - 1], steps[n - 1]);
      ChangeOk(LedgerOf(states[n - 1]), ChangeBy(states[n - 1], steps[n - 1]));
    }
  }

  // ------------------------------------------------------------------ theorems

  /** What the calls of pipewrite in a run were given. */
  ghost function Sources(steps: seq<Step>): seq<seq<Byte>> {
    if steps == [] then [] else
      var n := |steps| - 1;
      Sources(steps[..n]) + (if steps[n].WriteCall? then [steps[n].src] else [])
  }

  lemma {:induction false} CallsAreSources(states: seq<State>, steps: seq<Step>, n: nat)
    requires IsRun(states, steps) && n < |states|
    ensures states[n].calls == Sources(steps[..n])
  {
    if n > 0 {
      hide Next, Enabled, LedgerOf;
      CallsAreSources(states, steps, n - 1);
      StepCalls(states[n - 1], steps[n - 1]);
      assert steps[..n] == steps[..n - 1] + [steps[n - 1]];
    }
  }

  lemma StepCalls(s: State, st: Step)
    requires Enabled(s, st)
    ensures Next(s, st).calls == s.calls + (if st.WriteCall? then [st.src] else [])
  {
    hide Next, Enabled;
    StepChanges(s, st);
  }

  /** Over every run, the bytes that the c-th call of pipewrite has put are the first
      ones of what it was given: all of them once it has returned their number, the
      first r when it returned r, and some first ones when it returned -1 or is still
      in progress. */
  lemma WritersPutTheirSource(states: seq<State>, steps: seq<Step>, n: nat, c: nat)
    requires IsRun(states, steps) && n < |states| && c < |Sources(steps[..n])|
    ensures var s, src := states[n], Sources(steps[..n])[c];
            && |s.from| == |s.written| && BytesOf(s.written, s.from, c) <= src
            && (c in s.results ==> -1 <= s.results[c] <= |src|)
            && (c in s.results && s.results[c] >= 0 ==> BytesOf(s.written, s.from, c) == src[..s.results[c]])
  {
    CallsAreSources(states, steps, n);
    RunKeepsLedger(states, steps, n);
    hide IsRun, BytesOf, Sources;
    var g := LedgerOf(states[n]);
    if c in g.results {
      assert ResultOk(g, c);
    } else {
      assert InProgress(g.parts, c);
      var t :| 0 <= t < |g.parts| && g.parts[t].Some? && g.parts[t].value.id == c;
      assert PartOk(g, g.parts[t].value);
    }
  }

  /** A turn of pipewrite's loop: it fails exactly when the read end is closed or the
      process killed, sleeps exactly over a full pipe, stops early exactly when the
      user's byte cannot be read, and otherwise puts the next byte. */
  lemma WriteDecides(states: seq<State>, steps: seq<Step>, k: nat)
    requires IsRun(states, steps) && k < |steps| && steps[k].WriteTurn?
    ensures Enabled(states[k], steps[k])
    ensures var s, s', t := states[k], states[k + 1], steps[k].t;
            var pc := s.threads[t].pc;
            var failed, full := !s.readOpen || s.threads[t].killed, |s.written| == |s.taken| + PIPESIZE;
            && |s'.threads| == |s.threads|
            && (if failed then s'.threads[t].pc.Idle? && s'.results == s.results[pc.id := -1]
                else if full then s'.threads[t].pc == AsleepWrite(pc.id, pc.src, pc.i)
                else if !steps[k].copied then s'.threads[t].pc.Idle? && s'.results == s.results[pc.id := pc.i]
                else s'.written == s.written + [pc.src[pc.i]] && s'.from == s.from + [pc.id])
            && (failed || full || !steps[k].copied ==> s'.written == s.written)
            && (!failed && !full && steps[k].copied ==> s'.results == s.results)
  {
    RunKeepsInv(states, steps, k);
    assert Enabled(states[k], steps[k]);
    FullAndEmpty(states[k]);
    hide RingOk, LockOk, CallsOk, WritersOk;
  }

  /** pipewrite's way out of its loop: everything has been put. */
  lemma WriteEnds(states: seq<State>, steps: seq<Step>, k: nat)
    requires IsRun(states, steps) && k < |steps| && steps[k].WriteEnd?
    ensures Enabled(states[k], steps[k])
    ensures var s', c := states[k + 1], states[k].threads[steps[k].t].pc.id;
            && c < |Sources(steps[..k + 1])| && |s'.from| == |s'.written|
            && c in s'.results && s'.results[c] == |Sources(steps[..k + 1])[c]|
            && BytesOf(s'.written, s'.from, c) == Sources(steps[..k + 1])[c]
  {
    assert Enabled(states[k], steps[k]);
    var s, t := states[k], steps[k].t;
    RunKeepsLedger(states, steps, k);
    assert Parts(s)[t].Some? && PartOk(LedgerOf(s), Parts(s)[t].value);
    CallsAreSources(states, steps, k);
    CallsAreSources(states, steps, k + 1);
    StepCalls(s, steps[k]);
    StepChanges(s, steps[k]);
    hide Sources, LedgerOk, Parts, Next;
    assert states[k + 1] == Next(s, steps[k]);
    WritersPutTheirSource(states, steps, k + 1, s.threads[t].pc.id);
  }

  /** piperead before it copies: it sleeps exactly over an empty pipe that can still be
      written, unless the process is killed, which makes it fail. */
  lemma ReadDecides(states: seq<State>, steps: seq<Step>, k: nat)
    requires IsRun(states, steps) && k < |steps| && steps[k].ReadTurn?
    ensures Enabled(states[k], steps[k])
    ensures var s, s', t := states[k], states[k + 1], steps[k].t;
            var empty := s.written == s.taken;
            && |s'.threads| == |s.threads|
            && (if empty && s.writeOpen && s.threads[t].killed then
                  s'.threads[t].pc.Idle? && s'.gets == s.gets + [ReadDone(s.threads[t].pc.n, |s.taken|, [], -1)]
                else if empty && s.writeOpen then s'.threads[t].pc.AsleepRead? && s'.gets == s.gets
                else s'.threads[t].pc == ReadCopy(s.threads[t].pc.n, |s.taken|, []) && s'.gets == s.gets)
  {
    RunKeepsInv(states, steps, k);
    assert Enabled(states[k], steps[k]);
    FullAndEmpty(states[k]);
    SameWhenEmpty(states[k]);
    hide RingOk, LockOk, CallsOk, WritersOk;
  }

  lemma SameWhenEmpty(s: State)
    requires RingOk(s)
    ensures Count(s) == 0 <==> s.written == s.taken
  {
  }

  /** A turn of piperead's copy loop: it returns exactly when it has n bytes, the pipe
      is empty, or the user's byte cannot be written; and it returns no byte only for
      an empty pipe that nobody can write, a failed copy, or n == 0. */
  lemma CopyDecides(states: seq<State>, steps: seq<Step>, k: nat)
    requires IsRun(states, steps) && k < |steps| && steps[k].CopyTurn?
    ensures Enabled(states[k], steps[k])
    ensures var s, s', t := states[k], states[k + 1], steps[k].t;
            var pc := s.threads[t].pc;
            var ends := |pc.out| == pc.n || s.written == s.taken || !steps[k].copied;
            && |s'.threads| == |s.threads| && |pc.out| <= pc.n
            && (ends ==> s'.threads[t].pc.Idle? && s'.gets == s.gets + [ReadDone(pc.n, pc.start, pc.out, |pc.out|)])
            && (!ends ==> |s.taken| < |s.written| && s'.gets == s.gets
                          && s'.threads[t].pc == pc.(out := pc.out + [s.written[|s.taken|]]))
            && (ends && pc.out == [] && pc.n > 0 && steps[k].copied ==> s.written == s.taken && !s.writeOpen)
  {
    RunKeepsInv(states, steps, k);
    assert Enabled(states[k], steps[k]);
    var s := states[k];
    FullAndEmpty(s);
    SameWhenEmpty(s);
    assert CallOk(s, s.threads[steps[k].t].pc);
    if Count(s) > 0 {
      TakeOk(s);
    }
    hide RingOk, LockOk, CallsOk, WritersOk;
  }

  // ----------------------------------------------------------------- one writer

  /** The bytes of the first m calls, call after call. */
  ghost function Joined(written: seq<Byte>, from: seq<nat>, m: nat): seq<Byte>
    requires |from| == |written|
  {
    if m == 0 then [] else Joined(written, from, m - 1) + BytesOf(written, from, m - 1)
  }

  ghost predicate Sorted(from: seq<nat>) {
    forall j, k :: 0 <= j < k < |from| ==> from[j] <= from[k]
  }

  lemma {:induction false} JoinedPut(w: seq<Byte>, f: seq<nat>, ch: Byte, id: nat, m: nat)
    requires |f| == |w| && forall k :: 0 <= k < |f| ==> f[k] <= id
    ensures Joined(w + [ch], f + [id], m) == Joined(w, f, m) + (if id < m then [ch] else [])
  {
    hide BytesOf;
    if m > 0 {
      JoinedPut(w, f, ch, id, m - 1);
      PutBytes(w, f, ch, id, m - 1);
      var a, b := Joined(w, f, m - 1), BytesOf(w, f, m - 1);
      if id < m - 1 {
        NoBytes(w, f, m - 1);
      } else if id == m - 1 {
        assert a + (b + [ch]) == (a + b) + [ch];
      }
    }
  }

  lemma {:induction false} JoinedNothing(m: nat)
    ensures Joined([], [], m) == []
  {
    if m > 0 {
      JoinedNothing(m - 1);
    }
  }

  lemma {:induction false} SortedIsJoined(w: seq<Byte>, f: seq<nat>, m: nat)
    requires |f| == |w| && Sorted(f) && forall k :: 0 <= k < |f| ==> f[k] < m
    ensures Joined(w, f, m) == w
  {
    if w == [] {
      JoinedNothing(m);
    } else {
      hide Joined;
      var n := |w| - 1;
      SortedIsJoined(w[..n], f[..n], m);
      JoinedPut(w[..n], f[..n], w[n], f[n], m);
      assert w == w[..n] + [w[n]] && f == f[..n] + [f[n]];
    }
  }

  /** Only thread t calls pipewrite: a call in progress is the latest. */
  ghost predicate OnlyWriter(g: Ledger, t: nat) {
    && Sorted(g.from)
    && forall u :: 0 <= u < |g.parts| && g.parts[u].Some? ==> u == t && g.parts[u].value.id == |g.calls| - 1
  }

  lemma ChangeOnlyWriter(g: Ledger, e: Change, t: nat)
    requires LedgerOk(g) && Allowed(g, e) && OnlyWriter(g, t) && (e.Called? ==> e.t == t)
    ensures OnlyWriter(Changed(g, e), t)
  {
    hide PartOk, ResultOk, InProgress;
  }

  lemma {:induction false} RunOnlyWriter(states: seq<State>, steps: seq<Step>, n: nat, t: nat)
    requires IsRun(states, steps) && n < |states|
    requires forall k :: 0 <= k < |steps| && steps[k].WriteCall? ==> steps[k].t == t
    ensures OnlyWriter(LedgerOf(states[n]), t)
  {
    hide Next, Enabled;
    if n > 0 {
      hide OnlyWriter, LedgerOk, LedgerOf, Changed;
      RunOnlyWriter(states, steps, n - 1, t);
      RunKeepsLedger(states, steps, n - 1);
      StepChanges(states[n - 1], steps[n - 1]);
      ChangeOnlyWriter(LedgerOf(states[n - 1]), ChangeBy(states[n - 1], steps[n - 1]), t);
    }
  }

  /** With one writer, what has been put is what its calls put, call after call. */
  lemma OneWriterInOrder(states: seq<State>, steps: seq<Step>, n: nat, t: nat)
    requires IsRun(states, steps) && n < |states|
    requires forall k :: 0 <= k < |steps| && steps[k].WriteCall? ==> steps[k].t == t
    ensures var s := states[n];
            |s.from| == |s.written| && Joined(s.written, s.from, |Sources(steps[..n])|) == s.written
  {
    CallsAreSources(states, steps, n);
    RunKeepsLedger(states, steps, n);
    RunOnlyWriter(states, steps, n, t);
    hide IsRun;
    SortedIsJoined(states[n].written, states[n].from, |states[n].calls|);
  }
}
