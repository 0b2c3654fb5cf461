/** Concurrent calls of one generator's Next, in atomic steps. Any number of
    goroutines, any schedule of lock, clock reads, spin, writes and unlock. */
module GeneratorThreads {
  import opened Wrappers
  import opened Int64
  import opened Snowflake
  import opened GeneratorRuns

  /** Where a call of Next stands. From Inside to Leaving it holds the mutex. */
  datatype Phase =
    | Blocked                         // called, waiting for the mutex
    | Inside                          // mutex taken, clock not read yet
    | Compared(now: int)              // first reading taken, to be compared with lastMs
    | Sequenced(now: int)             // sequence written without overflow
    | Spinning(first: int, now: int)  // sequence wrapped to 0, waiting for the next ms
    | Stored                          // lastMs written, ID not packed yet
    | Leaving(result: Outcome)        // result ready, mutex still held
    | Unlocked(result: Outcome)       // mutex released, not returned yet
    | Done(result: Outcome)

  /** Step numbers of invocation, lock and return; `place` is the call's position
      in the sequential run once it has taken effect. */
  datatype Call = Call(phase: Phase, invoked: nat, locked: nat, place: nat, returned: nat)

  datatype State = State(
    steps: nat,
    worker: int,
    lastMs: int,
    sequence: int,
    mutex: Option<nat>,
    calls: map<nat, Call>,
    run: seq<Attempt>)   // the sequential run the calls so far amount to

  datatype Event =
    | Invoke(c: nat)
    | Lock(c: nat)
    | ReadClock(c: nat, ms: int)
    | Compare(c: nat)
    | SpinRead(c: nat, ms: int)
    | StoreMs(c: nat)
    | PackId(c: nat)
    | Unlock(c: nat)
    | Return(c: nat)

  predicate Holds(p: Phase) {
    p.Inside? || p.Compared? || p.Sequenced? || p.Spinning? || p.Stored? || p.Leaving?
  }

  predicate Enabled(s: State, e: Event) {
    match e
    case Invoke(c) => c !in s.calls
    case Lock(c) => c in s.calls && s.calls[c].phase.Blocked? && s.mutex == None
    case ReadClock(c, _) => c in s.calls && s.calls[c].phase.Inside?
    case Compare(c) => c in s.calls && s.calls[c].phase.Compared?
    case SpinRead(c, _) => c in s.calls && s.calls[c].phase.Spinning? && s.calls[c].phase.now <= s.lastMs
    case StoreMs(c) =>
      c in s.calls && (s.calls[c].phase.Sequenced?
                       || (s.calls[c].phase.Spinning? && s.calls[c].phase.now > s.lastMs))
    case PackId(c) => c in s.calls && s.calls[c].phase.Stored?
    case Unlock(c) => c in s.calls && s.calls[c].phase.Leaving?
    case Return(c) => c in s.calls && s.calls[c].phase.Unlocked?
  }

  function Move(s: State, c: nat, p: Phase): State
    requires c in s.calls
  {
    s.(calls := s.calls[c := s.calls[c].(phase := p)])
  }

  /** The effect point of a call: it joins the sequential run. */
  function Commit(s: State, c: nat, first: int, waited: int): State
    requires c in s.calls
  {
    s.(run := s.run + [Attempt(first, waited)],
       calls := s.calls[c := s.calls[c].(place := |s.run|)])
  }

  function Effect(s: State, e: Event): State
    requires Enabled(s, e)
  {
    match e
    case Invoke(c) => s.(calls := s.calls[c := Call(Blocked, s.steps, 0, 0, 0)])
    case Lock(c) => s.(mutex := Some(c), calls := s.calls[c := s.calls[c].(phase := Inside, locked := s.steps)])
    case ReadClock(c, ms) => Move(s, c, Compared(ms))
    case Compare(c) =>
      var now := s.calls[c].phase.now;
      if now < s.lastMs then
        Move(Commit(s, c, now, now), c, Leaving(ClockBackwards(s.lastMs - now)))
      else if now == s.lastMs then
        var bumped := And(s.sequence + 1, MAX_SEQUENCE);
        if bumped == 0 then Move(s.(sequence := bumped), c, Spinning(now, now))
        else Move(s.(sequence := bumped), c, Sequenced(now))
      else Move(s.(sequence := 0), c, Sequenced(now))
    case SpinRead(c, ms) => Move(s, c, Spinning(s.calls[c].phase.first, ms))
    case StoreMs(c) =>
      var p := s.calls[c].phase;
      var first := if p.Spinning? then p.first else p.now;
      Move(Commit(s, c, first, p.now).(lastMs := p.now), c, Stored)
    case PackId(c) => Move(s, c, Leaving(Issued(Pack(s.lastMs, s.worker, s.sequence))))
    case Unlock(c) => Move(s, c, Unlocked(s.calls[c].phase.result)).(mutex := None)
    case Return(c) =>
      s.(calls := s.calls[c := s.calls[c].(phase := Done(s.calls[c].phase.result), returned := s.steps)])
  }

  function Apply(s: State, e: Event): State
    requires Enabled(s, e)
  {
    Effect(s, e).(steps := s.steps + 1)
  }

  function Start(worker: int): State {
    State(0, worker, 0, 0, None, map[], [])
  }

  /** A schedule and the states it goes through: state i is the one before event i. */
  datatype Trace = Trace(events: seq<Event>, states: seq<State>)

  predicate StepAt(t: Trace, i: nat) {
    && i < |t.events| && i + 1 < |t.states|
    && Enabled(t.states[i], t.events[i]) && t.states[i + 1] == Apply(t.states[i], t.events[i])
  }

  predicate Behaviour(worker: int, t: Trace) {
    && |t.states| == |t.events| + 1
    && t.states[0] == Start(worker)
    && forall i: nat :: i < |t.events| ==> StepAt(t, i)
  }

  // ---------- the invariant ----------

  /** Relation between the shared fields and the sequential run, by the phase of
      the mutex holder. While waiting, `sequence` is already 0 and `lastMs` still old. */
  predicate Shared(s: State, base: Gen) {
    if s.mutex.Some? && s.mutex.value in s.calls then
      match s.calls[s.mutex.value].phase
      case Sequenced(now) =>
        s.lastMs == base.lastMs <= now && !Spins(base, now) && s.sequence == NextGen(base, now, now).sequence
      case Spinning(first, now) => s.lastMs == base.lastMs == first && base.sequence == MAX_SEQUENCE && s.sequence == 0
      case _ => s.lastMs == base.lastMs && s.sequence == base.sequence
    else s.mutex == None && s.lastMs == base.lastMs && s.sequence == base.sequence
  }

  predicate TookEffect(p: Phase) {
    p.Stored? || p.Leaving? || p.Unlocked? || p.Done?
  }

  /** A call that has taken effect got what its place in the run yields. */
  predicate Answered(s: State, k: Call) {
    TookEffect(k.phase) ==>
      && k.place < |s.run|
      && OutcomeAt(s.worker, s.run, k.place)
         == if k.phase.Stored? then Issued(Pack(s.lastMs, s.worker, s.sequence)) else k.phase.result
  }

  predicate Times(s: State, k: Call) {
    && k.invoked < s.steps
    && (!k.phase.Blocked? ==> k.invoked < k.locked < s.steps)
    && (k.phase.Done? ==> k.locked < k.returned < s.steps)
  }

  predicate CallOk(s: State, c: nat)
    requires c in s.calls
  {
    var k := s.calls[c];
    && (Holds(k.phase) <==> s.mutex == Some(c))
    && Times(s, k)
    && Answered(s, k)
  }

  /** Later lock, later place. */
  predicate Ordered(s: State, c: nat, d: nat)
    requires c in s.calls && d in s.calls
  {
    var k, l := s.calls[c], s.calls[d];
    c != d && !k.phase.Blocked? && !l.phase.Blocked? ==>
      && k.locked != l.locked
      && (s.mutex == Some(d) ==> k.locked < l.locked)
      && (k.locked < l.locked && TookEffect(l.phase) ==> TookEffect(k.phase) && k.place < l.place)
  }

  predicate Inv(s: State) {
    && 0 <= s.worker <= MAX_WORKER_ID
    && LegalRun(s.worker, s.run)
    && ValidGen(After(s.worker, s.run)) && After(s.worker, s.run).worker == s.worker
    && Shared(s, After(s.worker, s.run))
    && (s.mutex.Some? ==> s.mutex.value in s.calls)
    && (forall c :: c in s.calls ==> CallOk(s, c))
    && (forall c, d :: c in s.calls && d in s.calls ==> Ordered(s, c, d))
  }

  /** The run grows by one legal attempt when a call takes effect. */
  lemma CommitRun(s: State, first: int, waited: int)
    requires Inv(s) && Legal(After(s.worker, s.run), first, waited)
    ensures var run' := s.run + [Attempt(first, waited)];
            && LegalRun(s.worker, run')
            && After(s.worker, run') == NextGen(After(s.worker, s.run), first, waited)
            && ValidGen(After(s.worker, run')) && After(s.worker, run').worker == s.worker
            && OutcomeAt(s.worker, run', |s.run|) == NextOutcome(After(s.worker, s.run), first, waited)
            && (forall i :: 0 <= i < |s.run| ==> OutcomeAt(s.worker, run', i) == OutcomeAt(s.worker, s.run, i))
  {
    var run' := s.run + [Attempt(first, waited)];
    assert run'[..|s.run|] == s.run;
    forall i | 0 <= i < |s.run|
      ensures OutcomeAt(s.worker, run', i) == OutcomeAt(s.worker, s.run, i)
    {
      assert run'[..i] == s.run[..i];
    }
    NextAdvances(After(s.worker, s.run), first, waited);
  }

  /** A step of the mutex holder c leaves every other call as it was. */
  lemma HolderStep(s: State, s': State, c: nat)
    requires Inv(s) && s.mutex == Some(c) && s'.mutex == s.mutex
    requires s'.steps == s.steps + 1 && s'.worker == s.worker
    requires c in s'.calls && s'.calls == s.calls[c := s'.calls[c]]
    requires s'.calls[c].invoked == s.calls[c].invoked && s'.calls[c].locked == s.calls[c].locked
    requires |s.run| <= |s'.run|
    requires forall i :: 0 <= i < |s.run| ==> OutcomeAt(s.worker, s'.run, i) == OutcomeAt(s.worker, s.run, i)
    requires Holds(s'.calls[c].phase) && Answered(s', s'.calls[c])
    requires TookEffect(s.calls[c].phase) ==>
               TookEffect(s'.calls[c].phase) && s'.calls[c].place == s.calls[c].place
    requires TookEffect(s'.calls[c].phase) && !TookEffect(s.calls[c].phase) ==> s'.calls[c].place == |s.run|
    ensures forall d :: d in s'.calls ==> CallOk(s', d)
    ensures forall d, e :: d in s'.calls && e in s'.calls ==> Ordered(s', d, e)
  {
    hide Pack, LegalRun, After, OutcomeAt, Shared;
    forall d | d in s'.calls ensures CallOk(s', d) {
      assert CallOk(s, d) && CallOk(s, c);
    }
    forall d, e | d in s'.calls && e in s'.calls ensures Ordered(s', d, e) {
      assert CallOk(s, d) && CallOk(s, e) && CallOk(s, c);
      assert Ordered(s, d, e) && Ordered(s, d, c) && Ordered(s, e, c);
    }
  }

  lemma CompareKeepsInv(s: State, c: nat)
    requires Inv(s) && Enabled(s, Compare(c))
    ensures Inv(Apply(s, Compare(c)))
  {
    hide Pack, LegalRun, After, OutcomeAt, And;
    var s' := Apply(s, Compare(c));
    var now, base := s.calls[c].phase.now, After(s.worker, s.run);
    assert CallOk(s, c);
    BumpSequence(s.sequence);
    if now < s.lastMs {
      CommitRun(s, now, now);
    }
    HolderStep(s, s', c);
  }

  lemma StoreMsKeepsInv(s: State, c: nat)
    requires Inv(s) && Enabled(s, StoreMs(c))
    ensures Inv(Apply(s, StoreMs(c)))
  {
    hide Pack, LegalRun, After, OutcomeAt;
    var s' := Apply(s, StoreMs(c));
    var p := s.calls[c].phase;
    assert CallOk(s, c);
    CommitRun(s, if p.Spinning? then p.first else p.now, p.now);
    HolderStep(s, s', c);
  }

  /** Clock readings and packing: the holder moves, the run does not. */
  lemma LocalKeepsInv(s: State, e: Event)
    requires Inv(s) && Enabled(s, e) && (e.ReadClock? || e.SpinRead? || e.PackId?)
    ensures Inv(Apply(s, e))
  {
    hide Pack, LegalRun, After, OutcomeAt;
    assert CallOk(s, e.c);
    HolderStep(s, Apply(s, e), e.c);
  }

  /** Entering and leaving the critical section. */
  lemma MutexKeepsInv(s: State, e: Event)
    requires Inv(s) && Enabled(s, e) && (e.Lock? || e.Unlock?)
    ensures Inv(Apply(s, e))
  {
    hide Pack, LegalRun, After, OutcomeAt;
    var s' := Apply(s, e);
    assert e.c in s.calls ==> CallOk(s, e.c);
    forall d | d in s'.calls ensures CallOk(s', d) {
      assert d in s.calls ==> CallOk(s, d);
    }
    forall d, f | d in s'.calls && f in s'.calls ensures Ordered(s', d, f) {
      assert d in s.calls ==> CallOk(s, d);
      assert f in s.calls ==> CallOk(s, f);
      assert d in s.calls && f in s.calls ==> Ordered(s, d, f) && Ordered(s, f, d);
    }
  }

  /** The two ends of a call. */
  lemma BoundaryKeepsInv(s: State, e: Event)
    requires Inv(s) && Enabled(s, e) && (e.Invoke? || e.Return?)
    ensures Inv(Apply(s, e))
  {
    hide Pack, LegalRun, After, OutcomeAt;
    var s' := Apply(s, e);
    assert e.c in s.calls ==> CallOk(s, e.c);
    forall d | d in s'.calls ensures CallOk(s', d) {
      assert d in s.calls ==> CallOk(s, d);
    }
    forall d, f | d in s'.calls && f in s'.calls ensures Ordered(s', d, f) {
      assert d in s.calls ==> CallOk(s, d);
      assert f in s.calls ==> CallOk(s, f);
      assert d in s.calls && f in s.calls ==> Ordered(s, d, f) && Ordered(s, f, d);
    }
  }

  lemma WorkerFixed(s: State, e: Event)
    requires Enabled(s, e)
    ensures Apply(s, e).worker == s.worker
  {
  }

  lemma StartInv(worker: int)
    requires 0 <= worker <= MAX_WORKER_ID
    ensures Inv(Start(worker))
  {
  }

  lemma {:induction false} Reachable(worker: int, t: Trace, k: nat)
    requires 0 <= worker <= MAX_WORKER_ID && Behaviour(worker, t) && k < |t.states|
    ensures Inv(t.states[k]) && t.states[k].worker == worker
  {
    hide Effect, Inv;
    if k == 0 {
      StartInv(worker);
    } else {
      Reachable(worker, t, k - 1);
      assert StepAt(t, k - 1);
      var s, e := t.states[k - 1], t.events[k - 1];
      WorkerFixed(s, e);
      match e
      case Compare(c) => CompareKeepsInv(s, c);
      case StoreMs(c) => StoreMsKeepsInv(s, c);
      case ReadClock(_, _) => LocalKeepsInv(s, e);
      case SpinRead(_, _) => LocalKeepsInv(s, e);
      case PackId(_) => LocalKeepsInv(s, e);
      case Lock(_) => MutexKeepsInv(s, e);
      case Unlock(_) => MutexKeepsInv(s, e);
      case _ => BoundaryKeepsInv(s, e);
    }
  }

  // ---------- what callers see ----------

  /** With the mutex free, the shared fields are those of a legal sequential run. */
  lemma SimulatesSequential(worker: int, t: Trace, k: nat)
    requires 0 <= worker <= MAX_WORKER_ID && Behaviour(worker, t) && k < |t.states|
    ensures var s := t.states[k];
            && LegalRun(worker, s.run)
            && (s.mutex == None ==> Gen(worker, s.lastMs, s.sequence) == After(worker, s.run))
  {
    Reachable(worker, t, k);
  }

  function Position(g: Gen): int {
    Key(g.lastMs, g.sequence)
  }

  /** Positions of the generator along a run only go up. */
  lemma {:induction false} PositionsIncrease(worker: int, run: seq<Attempt>, i: nat, j: nat)
    requires 0 <= worker <= MAX_WORKER_ID && LegalRun(worker, run) && i <= j <= |run|
    ensures Position(After(worker, run[..i])) <= Position(After(worker, run[..j]))
    decreases j - i
  {
    if i < j {
      AttemptAt(worker, run, i);
      NextAdvances(After(worker, run[..i]), run[i].first, run[i].waited);
      PositionsIncrease(worker, run, i + 1, j);
    }
  }

  /** Two successes of a sequential run, in the window: the earlier ID is smaller. */
  lemma IdsFollowPlaces(worker: int, run: seq<Attempt>, i: nat, j: nat)
    requires 0 <= worker <= MAX_WORKER_ID && LegalRun(worker, run) && i < j < |run|
    requires OutcomeAt(worker, run, i).Issued? && OutcomeAt(worker, run, j).Issued?
    requires InWindow(After(worker, run[..i + 1]).lastMs) && InWindow(After(worker, run[..j + 1]).lastMs)
    ensures OutcomeAt(worker, run, i).id < OutcomeAt(worker, run, j).id
  {
    hide Pack, LegalRun, After;
    AttemptAt(worker, run, i);
    AttemptAt(worker, run, j);
    PositionsIncrease(worker, run, i + 1, j);
    var g, h := After(worker, run[..i]), After(worker, run[..j]);
    var g', h' := After(worker, run[..i + 1]), After(worker, run[..j + 1]);
    NextAdvances(g, run[i].first, run[i].waited);
    NextAdvances(h, run[j].first, run[j].waited);
    PackOrder(g'.lastMs, worker, g'.sequence, h'.lastMs, worker, h'.sequence);
  }

  /** Next is linearizable. For any schedule there is one legal sequential run of
      the generator such that every finished call, failed ones included, got the
      outcome of its own place in that run; places follow the lock order and the
      real-time order of calls; and in-window successes have IDs in that order. */
  lemma Linearizable(worker: int, t: Trace, n: nat, c: nat, d: nat)
    requires 0 <= worker <= MAX_WORKER_ID && Behaviour(worker, t) && n < |t.states|
    requires c in t.states[n].calls && d in t.states[n].calls && c != d
    requires t.states[n].calls[c].phase.Done? && t.states[n].calls[d].phase.Done?
    ensures var s := t.states[n];
            var k, l := s.calls[c], s.calls[d];
            && LegalRun(worker, s.run) && k.place < |s.run| && l.place < |s.run|
            && k.phase.result == OutcomeAt(worker, s.run, k.place)
            && (k.locked < l.locked <==> k.place < l.place) && k.place != l.place
            && (k.returned < l.invoked ==> k.place < l.place)
            && (k.place < l.place && k.phase.result.Issued? && l.phase.result.Issued?
                && InWindow(After(worker, s.run[..k.place + 1]).lastMs)
                && InWindow(After(worker, s.run[..l.place + 1]).lastMs)
                ==> k.phase.result.id < l.phase.result.id)
  {
    hide Pack, OutcomeAt, Behaviour;
    Reachable(worker, t, n);
    var s := t.states[n];
    var k, l := s.calls[c], s.calls[d];
    assert CallOk(s, c) && CallOk(s, d) && Ordered(s, c, d) && Ordered(s, d, c);
    if k.place < l.place && k.phase.result.Issued? && l.phase.result.Issued?
       && InWindow(After(worker, s.run[..k.place + 1]).lastMs)
       && InWindow(After(worker, s.run[..l.place + 1]).lastMs)
    {
      IdsFollowPlaces(worker, s.run, k.place, l.place);
    }
  }

  // ---------- what the calls did ----------

  /** Event e happened after step `from` and before step `to`. */
  predicate Happened(t: Trace, from: nat, to: nat, e: Event) {
    exists i: nat :: from < i < to && i < |t.events| && t.events[i] == e
  }

  /** Call c read `first` from the clock, and then `waited` if it had to spin. */
  predicate Read(t: Trace, from: nat, to: nat, c: nat, first: int, waited: int) {
    && Happened(t, from, to, ReadClock(c, first))
    && (waited == first || Happened(t, from, to, SpinRead(c, waited)))
  }

  predicate EventAt(t: Trace, i: nat, e: Event) {
    i < |t.events| && t.events[i] == e
  }

  /** The step numbers of a call are those of its events, and its attempt consists of
      readings it took itself while it held the mutex. */
  predicate CallTold(t: Trace, n: nat, s: State, c: nat)
    requires c in s.calls
  {
    var k := s.calls[c];
    && k.invoked < n && EventAt(t, k.invoked, Invoke(c))
    && (!k.phase.Blocked? ==> k.invoked < k.locked < n && EventAt(t, k.locked, Lock(c)))
    && match k.phase
       case Compared(now) => Read(t, k.locked, n, c, now, now)
       case Sequenced(now) => Read(t, k.locked, n, c, now, now)
       case Spinning(first, now) => Read(t, k.locked, n, c, first, now)
       case Done(_) =>
         && k.returned < n && EventAt(t, k.returned, Return(c)) && k.place < |s.run|
         && Read(t, k.locked, k.returned, c, s.run[k.place].first, s.run[k.place].waited)
       case _ =>
         TookEffect(k.phase) ==>
           k.place < |s.run| && Read(t, k.locked, n, c, s.run[k.place].first, s.run[k.place].waited)
  }

  predicate Told(t: Trace, n: nat)
    requires n < |t.states|
  {
    t.states[n].steps == n && forall c :: c in t.states[n].calls ==> CallTold(t, n, t.states[n], c)
  }

  lemma ReadLonger(t: Trace, from: nat, to: nat, c: nat, first: int, waited: int)
    requires Read(t, from, to, c, first, waited)
    ensures Read(t, from, to + 1, c, first, waited)
  {
  }

  lemma ReadNow(t: Trace, from: nat, n: nat, c: nat, ms: int)
    requires from < n && EventAt(t, n, ReadClock(c, ms))
    ensures Read(t, from, n + 1, c, ms, ms)
  {
    assert t.events[n] == ReadClock(c, ms);
  }

  lemma SpinNow(t: Trace, from: nat, n: nat, c: nat, first: int, was: int, ms: int)
    requires Read(t, from, n, c, first, was) && from < n && EventAt(t, n, SpinRead(c, ms))
    ensures Read(t, from, n + 1, c, first, ms)
  {
    assert t.events[n] == SpinRead(c, ms);
    ReadLonger(t, from, n, c, first, was);
  }

  /** A call that takes no part in a step stays told. */
  lemma OthersTold(t: Trace, n: nat, c: nat)
    requires n + 1 < |t.states| && c in t.states[n].calls && CallTold(t, n, t.states[n], c)
    requires c in t.states[n + 1].calls && t.states[n + 1].calls[c] == t.states[n].calls[c]
    requires t.states[n].run <= t.states[n + 1].run
    ensures CallTold(t, n + 1, t.states[n + 1], c)
  {
    hide Read;
    var s, s' := t.states[n], t.states[n + 1];
    var k := s.calls[c];
    match k.phase
    case Compared(now) => ReadLonger(t, k.locked, n, c, now, now);
    case Sequenced(now) => ReadLonger(t, k.locked, n, c, now, now);
    case Spinning(first, now) => ReadLonger(t, k.locked, n, c, first, now);
    case Stored => ReadLonger(t, k.locked, n, c, s.run[k.place].first, s.run[k.place].waited);
    case Leaving(_) => ReadLonger(t, k.locked, n, c, s.run[k.place].first, s.run[k.place].waited);
    case Unlocked(_) => ReadLonger(t, k.locked, n, c, s.run[k.place].first, s.run[k.place].waited);
    case _ =>
  }

  lemma RunGrows(s: State, e: Event)
    requires Enabled(s, e)
    ensures s.run <= Apply(s, e).run
    ensures forall c :: c in Apply(s, e).calls && c != e.c ==> c in s.calls && Apply(s, e).calls[c] == s.calls[c]
  {
  }

  /** The call that makes the step is told as well. */
  lemma ActorTold(t: Trace, n: nat, c: nat)
    requires n + 1 < |t.states| && StepAt(t, n) && t.states[n].steps == n && t.events[n].c == c
    requires c in t.states[n].calls ==> CallTold(t, n, t.states[n], c)
    ensures c in t.states[n + 1].calls && CallTold(t, n + 1, t.states[n + 1], c)
  {
    hide Pack, And, Read;
    var s, e := t.states[n], t.events[n];
    assert EventAt(t, n, e);
    if c in s.calls {
      var k := s.calls[c];
      match k.phase
      case Inside => ReadNow(t, k.locked, n, c, e.ms);
      case Compared(now) => ReadLonger(t, k.locked, n, c, now, now);
      case Sequenced(now) => ReadLonger(t, k.locked, n, c, now, now);
      case Spinning(first, now) =>
        ReadLonger(t, k.locked, n, c, first, now);
        if e.SpinRead? {
          SpinNow(t, k.locked, n, c, first, now, e.ms);
        }
      case Stored => ReadLonger(t, k.locked, n, c, s.run[k.place].first, s.run[k.place].waited);
      case Leaving(_) => ReadLonger(t, k.locked, n, c, s.run[k.place].first, s.run[k.place].waited);
      case _ =>
    }
  }

  lemma {:induction false} AlwaysTold(worker: int, t: Trace, n: nat)
    requires Behaviour(worker, t) && n < |t.states|
    ensures Told(t, n)
  {
    hide Effect, Enabled, CallTold;
    if n > 0 {
      AlwaysTold(worker, t, n - 1);
      assert StepAt(t, n - 1);
      var s, e := t.states[n - 1], t.events[n - 1];
      RunGrows(s, e);
      ActorTold(t, n - 1, e.c);
      forall c | c in t.states[n].calls ensures CallTold(t, n, t.states[n], c) {
        if c != e.c {
          OthersTold(t, n - 1, c);
        }
      }
    }
  }

  /** The sequential run of Linearizable is made of what the calls did: the lock and
      real-time order are those of the events of the schedule, and each attempt is made
      of clock readings that its own call took while it held the mutex. */
  lemma AttemptsAreReadings(worker: int, t: Trace, n: nat, c: nat)
    requires Behaviour(worker, t) && n < |t.states|
    requires c in t.states[n].calls && t.states[n].calls[c].phase.Done?
    ensures var s, k := t.states[n], t.states[n].calls[c];
            && k.invoked < k.locked < k.returned < n && k.place < |s.run|
            && t.events[k.invoked] == Invoke(c) && t.events[k.locked] == Lock(c) && t.events[k.returned] == Return(c)
            && (exists i: nat :: k.locked < i < k.returned && t.events[i] == ReadClock(c, s.run[k.place].first))
            && (s.run[k.place].waited == s.run[k.place].first
                || exists i: nat :: k.locked < i < k.returned && t.events[i] == SpinRead(c, s.run[k.place].waited))
  {
    AlwaysTold(worker, t, n);
    assert CallTold(t, n, t.states[n], c);
  }

  // ---------- calls do finish ----------

  /** The behaviour so far ends in state s. */
  predicate Ends(worker: int, t: Trace, s: State) {
    Behaviour(worker, t) && t.states[|t.states| - 1] == s
  }

  lemma Step(worker: int, t: Trace, s: State, e: Event) returns (t': Trace, s': State)
    requires Ends(worker, t, s) && Enabled(s, e)
    ensures Ends(worker, t', s') && s' == Apply(s, e) && t'.events == t.events + [e]
  {
    hide Apply, Enabled;
    s' := Apply(s, e);
    t' := Trace(t.events + [e], t.states + [s']);
    forall i: nat | i < |t'.events| ensures StepAt(t', i) {
      assert i < |t.events| ==> StepAt(t, i);
    }
  }

  function Fields(s: State): Gen {
    Gen(s.worker, s.lastMs, s.sequence)
  }

  /** Call c is in this phase, holds the mutex, and has changed nothing for others. */
  predicate Running(s: State, s': State, c: nat, p: Phase) {
    && c in s'.calls && s'.calls[c].phase == p && s'.mutex == Some(c) && s'.worker == s.worker
    && s'.calls == s.calls[c := s'.calls[c]]
  }

  lemma Enter(worker: int, t: Trace, s: State, c: nat, first: int) returns (t': Trace, s': State)
    requires Ends(worker, t, s) && s.mutex == None && c !in s.calls
    ensures Ends(worker, t', s') && t.events <= t'.events
    ensures Running(s, s', c, Compared(first)) && Fields(s') == Fields(s)
  {
    hide Ends;
    t', s' := Step(worker, t, s, Invoke(c));
    t', s' := Step(worker, t', s', Lock(c));
    t', s' := Step(worker, t', s', ReadClock(c, first));
  }

  /** The reading is compared, and an ID or an error is ready. */
  lemma Decide(worker: int, t: Trace, s: State, c: nat, first: int, waited: int) returns (t': Trace, s': State)
    requires Ends(worker, t, s) && ValidGen(Fields(s)) && Legal(Fields(s), first, waited)
    requires s.mutex == Some(c) && c in s.calls && s.calls[c].phase == Compared(first)
    ensures Ends(worker, t', s') && t.events <= t'.events
    ensures Running(s, s', c, Leaving(NextOutcome(Fields(s), first, waited)))
    ensures Fields(s') == NextGen(Fields(s), first, waited)
  {
    hide Ends, Pack, And;
    BumpSequence(s.sequence);
    t', s' := Step(worker, t, s, Compare(c));
    if s'.calls[c].phase.Spinning? {
      t', s' := Step(worker, t', s', SpinRead(c, waited));
    }
    if !s'.calls[c].phase.Leaving? {
      t', s' := Step(worker, t', s', StoreMs(c));
      t', s' := Step(worker, t', s', PackId(c));
    }
  }

  /** A call made when nobody holds the mutex, and not interrupted, returns what Next
      returns on the readings it meets, and leaves the fields as Next does. */
  lemma CallAlone(worker: int, t: Trace, s: State, c: nat, first: int, waited: int) returns (t': Trace, s': State)
    requires 0 <= worker <= MAX_WORKER_ID && Ends(worker, t, s)
    requires s.mutex == None && c !in s.calls && Legal(Fields(s), first, waited)
    ensures Ends(worker, t', s') && t.events <= t'.events
    ensures c in s'.calls && s'.calls[c].phase == Done(NextOutcome(Fields(s), first, waited))
    ensures s'.calls == s.calls[c := s'.calls[c]] && s'.mutex == None
    ensures Fields(s') == NextGen(Fields(s), first, waited)
  {
    hide Ends, Pack, NextGen, NextOutcome, Legal;
    ValidFieldsAtEnd(worker, t, s);
    t', s' := Enter(worker, t, s, c, first);
    t', s' := Decide(worker, t', s', c, first, waited);
    t', s' := Step(worker, t', s', Unlock(c));
    t', s' := Step(worker, t', s', Return(c));
  }

  lemma ValidFieldsAtEnd(worker: int, t: Trace, s: State)
    requires 0 <= worker <= MAX_WORKER_ID && Ends(worker, t, s) && s.mutex == None
    ensures ValidGen(Fields(s)) && s.worker == worker
  {
    Reachable(worker, t, |t.events|);
  }

  /** No deadlock: as long as some call has not returned, some call can go on. */
  lemma NeverStuck(worker: int, t: Trace, n: nat, c: nat) returns (e: Event)
    requires 0 <= worker <= MAX_WORKER_ID && Behaviour(worker, t) && n < |t.states|
    requires c in t.states[n].calls && !t.states[n].calls[c].phase.Done?
    ensures Enabled(t.states[n], e) && !e.Invoke?
  {
    hide Behaviour, Pack;
    Reachable(worker, t, n);
    var s := t.states[n];
    var d := if s.mutex.Some? then s.mutex.value else c;
    assert CallOk(s, d);
    var p := s.calls[d].phase;
    e := if p.Blocked? then Lock(d)
         else if p.Inside? then ReadClock(d, 0)
         else if p.Compared? then Compare(d)
         else if p.Spinning? && p.now <= s.lastMs then SpinRead(d, 0)
         else if p.Sequenced? || p.Spinning? then StoreMs(d)
         else if p.Stored? then PackId(d)
         else if p.Leaving? then Unlock(d)
         else Return(d);
  }
}
