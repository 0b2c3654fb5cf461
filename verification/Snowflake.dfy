/** The ID generator: internal/snowflake/snowflake.go. */
module Snowflake {
  import opened Int64
  import opened Wrappers

  const WORKER_BITS: nat := 10
  const SEQUENCE_BITS: nat := 12
  const MAX_WORKER_ID: int := 1023
  const MAX_SEQUENCE: int := 4095
  const WORKER_SHIFT: nat := SEQUENCE_BITS
  const TIMESTAMP_SHIFT: nat := SEQUENCE_BITS + WORKER_BITS

  /** 2024-01-01T00:00:00Z in Unix milliseconds. */
  const EPOCH: int := 1704067200000

  /** Milliseconds covered by the 41-bit timestamp field. */
  const WINDOW: int := 0x200_0000_0000

  predicate InWindow(ms: int) {
    EPOCH <= ms < EPOCH + WINDOW
  }

  lemma Powers()
    ensures Pow2(10) == 1024 && Pow2(12) == 4096 && Pow2(22) == 4194304
  {
    assert Pow2(4) == 16;
    assert Pow2(8) == 2 * (2 * (2 * (2 * Pow2(4))));
    assert Pow2(12) == 2 * (2 * (2 * (2 * Pow2(8))));
    assert Pow2(16) == 2 * (2 * (2 * (2 * Pow2(12))));
    assert Pow2(20) == 2 * (2 * (2 * (2 * Pow2(16))));
  }

  // ---------- packing ----------

  datatype Parts = Parts(timestampMs: int, workerID: int, sequence: int)

  function Pack(ms: int, worker: int, sequence: int): int {
    Or(Or(Shl(Wrap(ms - EPOCH), TIMESTAMP_SHIFT), Shl(worker, WORKER_SHIFT)), sequence)
  }

  function Decompose(id: int): Parts {
    Parts(Wrap(Shr(id, TIMESTAMP_SHIFT) + EPOCH),
          And(Shr(id, WORKER_SHIFT), MAX_WORKER_ID),
          And(id, MAX_SEQUENCE))
  }

  /** The documented layout: 41 bits of time, 10 of worker, 12 of sequence. */
  function Layout(ms: int, worker: int, sequence: int): int {
    (ms - EPOCH) * 4194304 + worker * 4096 + sequence
  }

  predicate ValidFields(worker: int, sequence: int) {
    0 <= worker <= MAX_WORKER_ID && 0 <= sequence <= MAX_SEQUENCE
  }

  lemma PackIsSum(ms: int, worker: int, sequence: int)
    requires ValidFields(worker, sequence)
    ensures Pack(ms, worker, sequence)
         == Wrap(Wrap(ms - EPOCH) * 4194304) + worker * 4096 + sequence
    ensures exists c :: Wrap(Wrap(ms - EPOCH) * 4194304) == c * 4194304
  {
    Powers();
    var t := Wrap(ms - EPOCH) * 4194304;
    var k := (t + TWO63) / TWO64;
    var c := Wrap(ms - EPOCH) - k * 4398046511104;
    assert Wrap(t) == t - k * TWO64 == c * 4194304;
    OrDisjoint(c, worker * 4096, 22);
    OrDisjoint(c * 1024 + worker, sequence, 12);
  }

  lemma PackFits(ms: int, worker: int, sequence: int)
    requires ValidFields(worker, sequence)
    ensures Fits(Pack(ms, worker, sequence))
  {
    hide Pack;
    PackIsSum(ms, worker, sequence);
    var t := Wrap(Wrap(ms - EPOCH) * 4194304);
    var c :| t == c * 4194304;
    assert c <= 2199023255551;
  }

  /** The shift-and-or result is the documented layout exactly when the time field
      does not overflow int64, and it is a non-negative int64 exactly in the window. */
  lemma PackRefinesLayout(ms: int, worker: int, sequence: int)
    requires ValidFields(worker, sequence) && Fits(ms - EPOCH)
    ensures Fits(Pack(ms, worker, sequence))
    ensures Pack(ms, worker, sequence) == Layout(ms, worker, sequence)
       <==> -WINDOW <= ms - EPOCH < WINDOW
    ensures InWindow(ms) ==> 0 <= Pack(ms, worker, sequence) < TWO63
    ensures -WINDOW <= ms - EPOCH < 0 ==> Pack(ms, worker, sequence) < 0
  {
    PackIsSum(ms, worker, sequence);
  }

  /** On any clock at all: the ID has its sign bit clear exactly when the time since
      the epoch falls in the lower half of a 2^42 ms cycle. A clock before 2024 or
      past the window therefore issues negative IDs. */
  lemma PackNonNegativeIff(ms: int, worker: int, sequence: int)
    requires ValidFields(worker, sequence)
    ensures Pack(ms, worker, sequence) >= 0 <==> Wrap(ms - EPOCH) % (2 * WINDOW) < WINDOW
  {
    hide Pack;
    PackIsSum(ms, worker, sequence);
    var x := Wrap(ms - EPOCH);
    var q, r := x / (2 * WINDOW), x % (2 * WINDOW);
    WrapCycle(x, q, r);
  }

  lemma WrapCycle(x: int, q: int, r: int)
    requires x == q * (2 * WINDOW) + r && 0 <= r < 2 * WINDOW
    ensures Wrap(x * 4194304) == if r < WINDOW then r * 4194304 else r * 4194304 - TWO64
  {
    var y := r * 4194304;
    assert x * 4194304 + TWO63 == q * TWO64 + (y + TWO63);
    if r < WINDOW {
      DivModUnique(x * 4194304 + TWO63, TWO64, q, y + TWO63);
    } else {
      DivModUnique(x * 4194304 + TWO63, TWO64, q + 1, y + TWO63 - TWO64);
    }
  }

  /** Documented as always positive; zero is reached at one single point. */
  lemma PackPositiveIff(ms: int, worker: int, sequence: int)
    requires ValidFields(worker, sequence) && InWindow(ms)
    ensures Pack(ms, worker, sequence) > 0 <==> !(ms == EPOCH && worker == 0 && sequence == 0)
  {
    PackRefinesLayout(ms, worker, sequence);
  }

  lemma MaskSequence(x: int)
    ensures And(x, MAX_SEQUENCE) == x % 4096
  {
    Powers();
    AndMask(x, 12);
  }

  lemma DecomposeIsDivision(id: int)
    requires Fits(id)
    ensures Decompose(id) == Parts(id / 4194304 + EPOCH, (id / 4096) % 1024, id % 4096)
  {
    Powers();
    AndMask(id / 4096, 10);
    AndMask(id, 12);
  }

  /** Decomposing a packed ID gives back its fields exactly when the time field
      does not overflow; a collision of IDs is then a collision of all fields. */
  lemma DecomposePack(ms: int, worker: int, sequence: int)
    requires ValidFields(worker, sequence) && Fits(ms - EPOCH)
    ensures Decompose(Pack(ms, worker, sequence)) == Parts(ms, worker, sequence)
       <==> -WINDOW <= ms - EPOCH < WINDOW
  {
    PackRefinesLayout(ms, worker, sequence);
    var id := Pack(ms, worker, sequence);
    DecomposeIsDivision(id);
    if -WINDOW <= ms - EPOCH < WINDOW {
      DivModUnique(id, 4194304, ms - EPOCH, worker * 4096 + sequence);
      DivModUnique(id, 4096, (ms - EPOCH) * 1024 + worker, sequence);
      DivModUnique((ms - EPOCH) * 1024 + worker, 1024, ms - EPOCH, worker);
    }
  }

  /** Repacking the parts of any int64 gives it back, negative ones included. */
  lemma PackDecompose(id: int)
    requires Fits(id)
    ensures var p := Decompose(id); Pack(p.timestampMs, p.workerID, p.sequence) == id
  {
    DecomposeIsDivision(id);
    var t, w, s := id / 4096 / 1024, (id / 4096) % 1024, id % 4096;
    assert id == t * 4194304 + (w * 4096 + s);
    DivModUnique(id, 4194304, t, w * 4096 + s);
    PackRefinesLayout(t + EPOCH, w, s);
  }

  lemma LayoutOrder(ms: int, worker: int, sequence: int, ms': int, worker': int, sequence': int)
    requires ValidFields(worker, sequence) && ValidFields(worker', sequence')
    ensures Layout(ms, worker, sequence) == Layout(ms', worker', sequence')
       <==> ms == ms' && worker == worker' && sequence == sequence'
    ensures ms < ms' ==> Layout(ms, worker, sequence) < Layout(ms', worker', sequence')
    ensures worker == worker' ==>
              (Layout(ms, worker, sequence) < Layout(ms', worker', sequence')
               <==> Key(ms, sequence) < Key(ms', sequence'))
  {
  }

  /** IDs from different workers differ, and IDs from different milliseconds are
      ordered by millisecond whatever the workers are. */
  lemma PackOrder(ms: int, worker: int, sequence: int, ms': int, worker': int, sequence': int)
    requires ValidFields(worker, sequence) && ValidFields(worker', sequence')
    requires InWindow(ms) && InWindow(ms')
    ensures Pack(ms, worker, sequence) == Pack(ms', worker', sequence')
       <==> ms == ms' && worker == worker' && sequence == sequence'
    ensures ms < ms' ==> Pack(ms, worker, sequence) < Pack(ms', worker', sequence')
    ensures worker == worker' ==>
              (Pack(ms, worker, sequence) < Pack(ms', worker, sequence')
               <==> Key(ms, sequence) < Key(ms', sequence'))
  {
    PackRefinesLayout(ms, worker, sequence);
    PackRefinesLayout(ms', worker', sequence');
    LayoutOrder(ms, worker, sequence, ms', worker', sequence');
  }

  // ---------- one call of Next, as a function ----------

  datatype Gen = Gen(worker: int, lastMs: int, sequence: int)

  datatype Outcome = Issued(id: int) | ClockBackwards(byMs: int)

  predicate ValidGen(g: Gen) {
    ValidFields(g.worker, g.sequence)
  }

  function Fresh(worker: int): Gen {
    Gen(worker, 0, 0)
  }

  /** Position of (ms, sequence) in lexicographic order. */
  function Key(ms: int, sequence: int): int {
    ms * 4096 + sequence
  }

  /** Does a call whose first clock reading is `first` enter the busy wait? */
  predicate Spins(g: Gen, first: int) {
    first == g.lastMs && g.sequence == MAX_SEQUENCE
  }

  /** `waited` is the reading that ends the busy wait; it matters only when spinning. */
  predicate Legal(g: Gen, first: int, waited: int) {
    Spins(g, first) ==> waited > g.lastMs
  }

  function NextGen(g: Gen, first: int, waited: int): Gen {
    if first < g.lastMs then g
    else if Spins(g, first) then g.(lastMs := waited, sequence := 0)
    else if first == g.lastMs then g.(sequence := g.sequence + 1)
    else g.(lastMs := first, sequence := 0)
  }

  function NextOutcome(g: Gen, first: int, waited: int): Outcome {
    if first < g.lastMs then ClockBackwards(g.lastMs - first)
    else
      var n := NextGen(g, first, waited);
      Issued(Pack(n.lastMs, n.worker, n.sequence))
  }

  /** The masked increment of the sequence wraps to zero exactly at the maximum. */
  lemma BumpSequence(sequence: int)
    requires 0 <= sequence <= MAX_SEQUENCE
    ensures And(sequence + 1, MAX_SEQUENCE) == if sequence == MAX_SEQUENCE then 0 else sequence + 1
  {
    var next := sequence + 1;
    var masked := And(next, MAX_SEQUENCE);
    assert masked == next % 4096 by { MaskSequence(next); }
    DivModUnique(next, 4096, if next == 4096 then 1 else 0, if next == 4096 then 0 else next);
  }

  /** A call fails exactly on a reading below lastMs, and then changes nothing. A
      success stamps the ID with one of the readings, unaltered: the first one unless
      it waited. It moves (lastMs, sequence) strictly up in lexicographic order. */
  lemma NextAdvances(g: Gen, first: int, waited: int)
    requires ValidGen(g) && Legal(g, first, waited)
    ensures var n := NextGen(g, first, waited);
            && ValidGen(n) && n.worker == g.worker && n.lastMs >= g.lastMs
            && match NextOutcome(g, first, waited)
               case ClockBackwards(byMs) => first < g.lastMs && byMs == g.lastMs - first && n == g
               case Issued(id) =>
                 && first >= g.lastMs
                 && n.lastMs == (if first == g.lastMs && g.sequence == 4095 then waited else first)
                 && n.sequence == (if n.lastMs == g.lastMs then g.sequence + 1 else 0)
                 && id == Pack(n.lastMs, n.worker, n.sequence)
                 && Key(g.lastMs, g.sequence) < Key(n.lastMs, n.sequence)
  {
  }

  // ---------- the imperative generator ----------

  /** A source of time: the n-th call of Now returns the n-th reading. */
  class Clock {
    const readings: nat -> int
    var pos: nat

    constructor (readings: nat -> int)
      ensures this.readings == readings && pos == 0
    {
      this.readings := readings;
      pos := 0;
    }

    method Now() returns (ms: int)
      modifies this
      ensures ms == readings(old(pos)) && pos == old(pos) + 1
    {
      ms := readings(pos);
      pos := pos + 1;
    }
  }

  /** Reading n is the first one at or after position `from` that is above `bound`. */
  ghost predicate FirstAbove(readings: nat -> int, from: nat, bound: int, n: nat) {
    from <= n && readings(n) > bound && forall k :: from <= k < n ==> readings(k) <= bound
  }

  class Generator {
    const workerID: int
    var lastMs: int
    var sequence: int
    const clock: Clock

    ghost function State(): Gen
      reads this
    {
      Gen(workerID, lastMs, sequence)
    }

    ghost predicate Valid()
      reads this
    {
      ValidGen(State())
    }

    constructor (workerID: int, clock: Clock)
      requires 0 <= workerID <= MAX_WORKER_ID
      ensures Valid() && State() == Fresh(workerID) && this.clock == clock
    {
      this.workerID := workerID;
      lastMs := 0;
      sequence := 0;
      this.clock := clock;
    }

    /** The constructor function of the package: it rejects a bad worker ID. */
    static method New(workerID: int, clock: Clock) returns (g: Result<Generator, int>)
      ensures g.Ok? <==> 0 <= workerID <= MAX_WORKER_ID
      ensures g.Ok? ==> fresh(g.value) && g.value.Valid() && g.value.clock == clock
                        && g.value.State() == Fresh(workerID)
      ensures g.Err? ==> g.error == workerID
    {
      if workerID < 0 || workerID > MAX_WORKER_ID {
        return Err(workerID);
      }
      var gen := new Generator(workerID, clock);
      return Ok(gen);
    }

    /** A call of Next returns unless it must wait for a clock that never moves on. */
    ghost predicate CanReturn()
      reads this, clock
    {
      Spins(State(), clock.readings(clock.pos)) ==>
        exists n :: clock.pos < n && clock.readings(n) > lastMs
    }

    /** The readings consumed since position `from`, with one call in between:
        the first of them and the last, which ended the wait if there was one. */
    ghost function Drawn(before: Gen, from: nat): Outcome
      reads clock
    {
      NextOutcome(before, clock.readings(from), clock.readings(if clock.pos == 0 then 0 else clock.pos - 1))
    }

    /** One call of Next has happened since the state `before` at position `from`. */
    ghost predicate Stepped(before: Gen, from: nat)
      reads this, clock
    {
      && clock.pos > from
      && (var first, waited := clock.readings(from), clock.readings(clock.pos - 1);
          && Legal(before, first, waited)
          && State() == NextGen(before, first, waited)
          && (if Spins(before, first)
              then FirstAbove(clock.readings, from + 1, before.lastMs, clock.pos - 1)
              else clock.pos == from + 1))
    }

    /** Busy wait. It ends if the clock ever passes lastMs, however it stalls or
        steps back before, and consumes readings up to the first such one. */
    method WaitNextMillis(nowMs: int) returns (ms: int)
      requires nowMs <= lastMs
      requires exists n :: clock.pos <= n && clock.readings(n) > lastMs
      modifies clock
      ensures clock.pos > old(clock.pos)
      ensures FirstAbove(clock.readings, old(clock.pos), lastMs, clock.pos - 1)
      ensures ms == clock.readings(clock.pos - 1) > lastMs
      ensures forall k :: old(clock.pos) <= k < clock.pos - 1 ==> clock.readings(k) <= lastMs
    {
      ghost var end :| clock.pos <= end && clock.readings(end) > lastMs;
      ms := nowMs;
      while ms <= lastMs
        invariant old(clock.pos) <= clock.pos <= end + 1
        invariant clock.pos == end + 1 ==> ms > lastMs
        invariant forall k :: old(clock.pos) <= k < clock.pos - 1 ==> clock.readings(k) <= lastMs
        invariant if clock.pos == old(clock.pos) then ms == nowMs else ms == clock.readings(clock.pos - 1)
        decreases end + 1 - clock.pos
      {
        ms := clock.Now();
      }
    }

    /** One call of Next is one step of the functional generator, fed with the first
        reading of the clock and, on exhaustion, the first later one above lastMs. */
    method Next() returns (res: Outcome)
      requires Valid()
      requires CanReturn()
      modifies this, clock
      ensures Valid() && Stepped(old(State()), old(clock.pos))
      ensures res == Drawn(old(State()), old(clock.pos))
      ensures var first := clock.readings(old(clock.pos));
              && (res.Issued? <==> first >= old(lastMs))
              && (res.ClockBackwards? ==>
                    res.byMs == old(lastMs) - first && unchanged(this) && clock.pos == old(clock.pos) + 1)
              && (clock.pos > old(clock.pos) + 1 ==> first == old(lastMs) && old(sequence) == 4095)
      ensures res.Issued? ==>
                && lastMs == clock.readings(clock.pos - 1)
                && sequence == (if lastMs == old(lastMs) then old(sequence) + 1 else 0)
                && Fits(res.id)
      ensures res.Issued? && InWindow(lastMs) ==>
                && res.id == (lastMs - EPOCH) * 4194304 + workerID * 4096 + sequence
                && Decompose(res.id) == Parts(clock.readings(clock.pos - 1), workerID, sequence)
    {
      hide Pack, Decompose, And, Wrap;
      var nowMs := clock.Now();
      if nowMs < lastMs {
        return ClockBackwards(lastMs - nowMs);
      }
      if nowMs == lastMs {
        BumpSequence(sequence);
        sequence := And(sequence + 1, MAX_SEQUENCE);
        if sequence == 0 {
          nowMs := WaitNextMillis(nowMs);
        }
      } else {
        sequence := 0;
      }
      lastMs := nowMs;
      PackFits(nowMs, workerID, sequence);
      if InWindow(nowMs) {
        PackRefinesLayout(nowMs, workerID, sequence);
        DecomposePack(nowMs, workerID, sequence);
      }
      return Issued(Pack(nowMs, workerID, sequence));
    }
  }
}
