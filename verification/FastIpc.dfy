/** The shared counters of fastipc.h: one producer and one consumer, interleaved at
    every atomic load and store.  The counters are 64-bit words that are only ever
    moved through a 32-bit int. */
module FastIpc {
  const BUF_SIZE: int := 65536
  const W32: int := 0x1_0000_0000
  const W64: int := 0x1_0000_0000_0000_0000

  // -------------------------------------------------------- integer conversions

  /** (int) of an unsigned long. */
  function ToInt(x: int): int {
    if x % W32 < 0x8000_0000 then x % W32 else x % W32 - W32
  }

  /** (unsigned long) of an int: sign extension. */
  function ToLong(i: int): int {
    i % W64
  }

  /** store: the argument passes through an int. */
  function Stored(x: int): int { ToLong(ToInt(x)) }

  /** load: the result passes through an int, and the caller widens it again. */
  function Loaded(word: int): int { ToLong(ToInt(word)) }

  /** The count that start_write hands out for two loaded counters. */
  function WriteCount(read: int, write: int): int {
    ToInt((BUF_SIZE - (write - read) % W64) % W64)
  }

  /** The count that start_read hands out. */
  function ReadCount(read: int, write: int): int {
    ToInt((write - read) % W64)
  }

  lemma Wraps(x: int, k: int)
    ensures (x + W32 * k) % W32 == x % W32
  {
  }

  lemma Low32(x: int)
    ensures (x % W64) % W32 == x % W32
  {
    assert x == x % W64 + W32 * (W32 * (x / W64));
    Wraps(x % W64, W32 * (x / W64));
  }

  /** Only the low 32 bits of what is stored or loaded matter. */
  lemma StoredLow(x: int)
    ensures Stored(x) % W32 == x % W32 && Loaded(Stored(x)) == Stored(x)
    ensures forall y :: y % W32 == x % W32 ==> Stored(y) == Stored(x)
  {
    Low32(ToInt(x));
  }

  /** The difference of two stored totals, reduced to 32 bits, is the difference of
      the totals themselves, however often either counter has wrapped. */
  lemma Difference(r: int, w: int)
    ensures ((Stored(w) - Stored(r)) % W64) % W32 == (w - r) % W32
  {
    StoredLow(r);
    StoredLow(w);
    Low32(Stored(w) - Stored(r));
    ModDiff(Stored(w), Stored(r), w, r);
  }

  lemma ModDiff(a: int, b: int, c: int, d: int)
    requires a % W32 == c % W32 && b % W32 == d % W32
    ensures (a - b) % W32 == (c - d) % W32
  {
    assert a - b == (c - d) + W32 * (a / W32 - c / W32 - b / W32 + d / W32);
    Wraps(c - d, a / W32 - c / W32 - b / W32 + d / W32);
  }

  lemma WriteCountExact(r: int, w: int)
    requires 0 <= w - r <= BUF_SIZE
    ensures WriteCount(Stored(r), Stored(w)) == BUF_SIZE - (w - r)
  {
    Difference(r, w);
    hide Stored;
    var d := (Stored(w) - Stored(r)) % W64;
    Low32(BUF_SIZE - d);
    ModDiff(BUF_SIZE, d, BUF_SIZE, w - r);
  }

  lemma ReadCountExact(r: int, w: int)
    requires 0 <= w - r <= BUF_SIZE
    ensures ReadCount(Stored(r), Stored(w)) == w - r
  {
    Difference(r, w);
    hide Stored;
  }

  /** Adding to a stored total: load, add, store. */
  lemma AddStored(total: int, bytes: int)
    ensures Stored((Loaded(Stored(total)) + ToLong(bytes)) % W64) == Stored(total + bytes)
  {
    StoredLow(total);
    var x := Stored(total) + ToLong(bytes);
    Low32(x);
    Low32(bytes);
    assert x % W32 == (total + bytes) % W32 by {
      ModSum(Stored(total), ToLong(bytes), total, bytes);
    }
    StoredLow(x % W64);
    StoredLow(total + bytes);
  }

  lemma ModSum(a: int, b: int, c: int, d: int)
    requires a % W32 == c % W32 && b % W32 == d % W32
    ensures (a + b) % W32 == (c + d) % W32
  {
    assert a + b == (c + d) + W32 * (a / W32 - c / W32 + b / W32 - d / W32);
    Wraps(c + d, a / W32 - c / W32 + b / W32 - d / W32);
  }

  // ------------------------------------------------------------- the machine

  /** The producer and the consumer, each between two atomic accesses.
      Idle:       no start call yet
      GotRead:    start has loaded read_done (total is what it stood for)
      Have:       start has returned; count is what it granted and is not yet used
      GotOwn:     finish(bytes) has loaded its own counter */
  datatype Side =
    | Idle
    | GotRead(read: int, total: int)
    | Have(count: int)
    | GotOwn(own: int, bytes: int, count: int)

  /** The two shared words, the two programs, and the unbounded totals of bytes
      finished so far. */
  datatype State = State(readDone: int, writeDone: int, producer: Side, consumer: Side, R: int, W: int)

  datatype Step =
    | StartWrite1 | StartWrite2 | FinishWrite1(bytes: int) | FinishWrite2
    | StartRead1 | StartRead2 | FinishRead1(bytes: int) | FinishRead2

  const INIT: State := State(0, 0, Idle, Idle, 0, 0)

  /** finish may be called, once or in parts, up to the count that start granted. */
  predicate Enabled(s: State, a: Step) {
    match a
    case StartWrite1 => s.producer.Idle? || s.producer.Have?
    case StartWrite2 => s.producer.GotRead?
    case FinishWrite1(bytes) => s.producer.Have? && 0 <= bytes <= s.producer.count
    case FinishWrite2 => s.producer.GotOwn?
    case StartRead1 => s.consumer.Idle? || s.consumer.Have?
    case StartRead2 => s.consumer.GotRead?
    case FinishRead1(bytes) => s.consumer.Have? && 0 <= bytes <= s.consumer.count
    case FinishRead2 => s.consumer.GotOwn?
  }

  function Next(s: State, a: Step): State
    requires Enabled(s, a)
  {
    match a
    case StartWrite1 => s.(producer := GotRead(Loaded(s.readDone), s.R))
    case StartWrite2 => s.(producer := Have(WriteCount(s.producer.read, Loaded(s.writeDone))))
    case FinishWrite1(bytes) => s.(producer := GotOwn(Loaded(s.writeDone), bytes, s.producer.count))
    case FinishWrite2 =>
      s.(writeDone := Stored((s.producer.own + ToLong(s.producer.bytes)) % W64),
         producer := Have(s.producer.count - s.producer.bytes), W := s.W + s.producer.bytes)
    case StartRead1 => s.(consumer := GotRead(Loaded(s.readDone), s.R))
    case StartRead2 => s.(consumer := Have(ReadCount(s.consumer.read, Loaded(s.writeDone))))
    case FinishRead1(bytes) => s.(consumer := GotOwn(Loaded(s.readDone), bytes, s.consumer.count))
    case FinishRead2 =>
      s.(readDone := Stored((s.consumer.own + ToLong(s.consumer.bytes)) % W64),
         consumer := Have(s.consumer.count - s.consumer.bytes), R := s.R + s.consumer.bytes)
  }

  /** What the producer may rely on, whatever the consumer does meanwhile. */
  predicate ProducerOk(s: State) {
    match s.producer
    case Idle => true
    case GotRead(read, total) => read == Stored(total) && total <= s.R && s.W - total <= BUF_SIZE
    case Have(count) => 0 <= count <= BUF_SIZE - (s.W - s.R)
    case GotOwn(own, bytes, count) => own == Stored(s.W) && 0 <= bytes <= count <= BUF_SIZE - (s.W - s.R)
  }

  predicate ConsumerOk(s: State) {
    match s.consumer
    case Idle => true
    case GotRead(read, total) => read == Stored(s.R) && total == s.R
    case Have(count) => 0 <= count <= s.W - s.R
    case GotOwn(own, bytes, count) => own == Stored(s.R) && 0 <= bytes <= count <= s.W - s.R
  }

  /** The words hold the totals reduced to 32 bits, the ring never over- or
      underflows, and no side was promised more than there is. */
  predicate Inv(s: State) {
    && s.readDone == Stored(s.R) && s.writeDone == Stored(s.W)
    && 0 <= s.R <= s.W <= s.R + BUF_SIZE
    && ProducerOk(s) && ConsumerOk(s)
  }

  lemma StepKeepsInv(s: State, a: Step)
    requires Inv(s) && Enabled(s, a)
    ensures Inv(Next(s, a))
    ensures a.StartWrite2? ==>
              Next(s, a).producer.count == BUF_SIZE - (s.W - s.producer.total) <= BUF_SIZE - (s.W - s.R)
    ensures a.StartRead2? ==> Next(s, a).consumer.count == s.W - s.R
    ensures a.StartWrite1? ==> Next(s, a).producer.total == s.R
  {
    hide Stored, Loaded, WriteCount, ReadCount;
    Reload(s.R);
    Reload(s.W);
    match a
    case StartWrite2 => WriteCountExact(s.producer.total, s.W);
    case FinishWrite2 => AddStored(s.W, s.producer.bytes);
    case StartRead2 => ReadCountExact(s.R, s.W);
    case FinishRead2 => AddStored(s.R, s.consumer.bytes);
    case _ =>
  }

  lemma Reload(total: int)
    ensures Loaded(Stored(total)) == Stored(total)
  {
    StoredLow(total);
  }

  ghost predicate IsRun(run: seq<State>, steps: seq<Step>) {
    && |run| == |steps| + 1
    && run[0] == INIT
    && forall i :: 0 <= i < |steps| ==> Enabled(run[i], steps[i]) && run[i + 1] == Next(run[i], steps[i])
  }

  /** In every interleaving, for any length of run, the bytes written and not yet
      read stay between 0 and BUF_SIZE, although the shared words only know them
      modulo 2^32; and the counts handed out never exceed the space or the data that
      is really there. */
  lemma {:induction false} CountersAreSafe(run: seq<State>, steps: seq<Step>, i: nat)
    requires IsRun(run, steps) && i < |run|
    ensures Inv(run[i])
    ensures 0 <= run[i].W - run[i].R <= BUF_SIZE
    ensures run[i].producer.Have? ==> 0 <= run[i].producer.count <= BUF_SIZE - (run[i].W - run[i].R)
    ensures run[i].consumer.Have? ==> 0 <= run[i].consumer.count <= run[i].W - run[i].R
  {
    if i > 0 {
      CountersAreSafe(run, steps, i - 1);
      StepKeepsInv(run[i - 1], steps[i - 1]);
    }
  }

  // ------------------------------------------------------------- the totals

  /** The bytes passed to finish_write and to finish_read. */
  function Wrote(steps: seq<Step>): int {
    if steps == [] then 0 else
      var n := |steps| - 1;
      Wrote(steps[..n]) + (if steps[n].FinishWrite1? then steps[n].bytes else 0)
  }

  function DidRead(steps: seq<Step>): int {
    if steps == [] then 0 else
      var n := |steps| - 1;
      DidRead(steps[..n]) + (if steps[n].FinishRead1? then steps[n].bytes else 0)
  }

  /** What a finish call under way is about to add. */
  function Due(x: Side): int { if x.GotOwn? then x.bytes else 0 }

  /** The totals are exactly what the finish calls were given, so the space a start call
      finds is what those calls left. */
  lemma {:induction false} TotalsAreFinished(run: seq<State>, steps: seq<Step>, i: nat)
    requires IsRun(run, steps) && i < |run|
    ensures run[i].W + Due(run[i].producer) == Wrote(steps[..i])
    ensures run[i].R + Due(run[i].consumer) == DidRead(steps[..i])
  {
    if i > 0 {
      TotalsAreFinished(run, steps, i - 1);
      assert steps[..i] == steps[..i - 1] + [steps[i - 1]];
      assert steps[..i][..i - 1] == steps[..i - 1];
      hide Stored, Loaded, WriteCount, ReadCount;
    }
  }
}
