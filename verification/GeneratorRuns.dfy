/** Whole runs of one generator: which (millisecond, sequence) stamps it issues. */
module GeneratorRuns {
  import opened Int64
  import opened Snowflake
  import opened Base62

  /** One call of Next: its first clock reading and the one that ended its wait. */
  datatype Attempt = Attempt(first: int, waited: int)

  datatype Stamp = Stamp(ms: int, sequence: int)

  predicate LegalRun(worker: int, run: seq<Attempt>) {
    run == [] ||
    (var prev, last := run[..|run| - 1], run[|run| - 1];
     LegalRun(worker, prev) && Legal(After(worker, prev), last.first, last.waited))
  }

  /** The generator's fields after the run, starting from New. */
  function After(worker: int, run: seq<Attempt>): Gen {
    if run == [] then Fresh(worker)
    else NextGen(After(worker, run[..|run| - 1]), run[|run| - 1].first, run[|run| - 1].waited)
  }

  /** The stamps of the successful calls, in order. */
  function History(worker: int, run: seq<Attempt>): seq<Stamp> {
    if run == [] then []
    else
      var prev, last := run[..|run| - 1], run[|run| - 1];
      History(worker, prev)
      + (if last.first < After(worker, prev).lastMs then []
         else [Stamp(After(worker, run).lastMs, After(worker, run).sequence)])
  }

  function StampKey(s: Stamp): int {
    Key(s.ms, s.sequence)
  }

  /** Sequence numbers issued at one millisecond, in order of issue. */
  function At(h: seq<Stamp>, ms: int): seq<int> {
    if h == [] then []
    else At(h[..|h| - 1], ms) + (if h[|h| - 1].ms == ms then [h[|h| - 1].sequence] else [])
  }

  /** The first sequence number of a millisecond. Zero, except at the Unix epoch
      itself: there the zero-valued lastMs makes the first call look like a repeat. */
  function FirstSequence(ms: int): int {
    if ms == 0 then 1 else 0
  }

  // ---------- order ----------

  predicate Increasing(h: seq<Stamp>) {
    forall i, j :: 0 <= i < j < |h| ==> StampKey(h[i]) < StampKey(h[j])
  }

  predicate StampsBelow(h: seq<Stamp>, g: Gen) {
    forall i :: 0 <= i < |h| ==>
      0 <= h[i].sequence <= MAX_SEQUENCE && 0 <= h[i].ms <= g.lastMs
      && StampKey(h[i]) <= Key(g.lastMs, g.sequence)
  }

  /** Stamps strictly increase over any legal run, on any clock. */
  lemma {:induction false} HistoryIncreases(worker: int, run: seq<Attempt>)
    requires 0 <= worker <= MAX_WORKER_ID && LegalRun(worker, run)
    ensures ValidGen(After(worker, run)) && After(worker, run).worker == worker
    ensures Increasing(History(worker, run))
    ensures StampsBelow(History(worker, run), After(worker, run))
    ensures After(worker, run).lastMs >= 0
  {
    if run != [] {
      var prev, last := run[..|run| - 1], run[|run| - 1];
      HistoryIncreases(worker, prev);
      NextAdvances(After(worker, prev), last.first, last.waited);
    }
  }

  function IdOf(worker: int, s: Stamp): int {
    Pack(s.ms, worker, s.sequence)
  }

  /** Inside the window, IDs and short codes increase with every success. */
  lemma IdsAndCodesIncrease(worker: int, run: seq<Attempt>, i: int, j: int)
    requires 0 <= worker <= MAX_WORKER_ID && LegalRun(worker, run)
    requires 0 <= i < j < |History(worker, run)|
    requires forall k :: 0 <= k < |History(worker, run)| ==> InWindow(History(worker, run)[k].ms)
    ensures var a, b := IdOf(worker, History(worker, run)[i]), IdOf(worker, History(worker, run)[j]);
            0 <= a < b < TWO63 && ShortLex(Code(a), Code(b))
  {
    HistoryIncreases(worker, run);
    var s, t := History(worker, run)[i], History(worker, run)[j];
    PackOrder(s.ms, worker, s.sequence, t.ms, worker, t.sequence);
    PackRefinesLayout(s.ms, worker, s.sequence);
    PackRefinesLayout(t.ms, worker, t.sequence);
    CodeOrder(IdOf(worker, s), IdOf(worker, t));
  }

  /** Two successes on any clocks and any workers, as stamps: their short codes are
      the same exactly when the stamps and workers are, or both IDs are negative and
      both codes therefore empty. Inside the window only the first can happen. */
  lemma SameCodeIff(worker: int, s: Stamp, worker': int, s': Stamp)
    requires ValidFields(worker, s.sequence) && ValidFields(worker', s'.sequence)
    requires Fits(s.ms - EPOCH) && Fits(s'.ms - EPOCH)
    requires -WINDOW <= s.ms - EPOCH < WINDOW && -WINDOW <= s'.ms - EPOCH < WINDOW
    ensures Code(IdOf(worker, s)) == Code(IdOf(worker', s'))
       <==> (worker == worker' && s == s') || (s.ms < EPOCH && s'.ms < EPOCH)
  {
    hide Pack;
    PackRefinesLayout(s.ms, worker, s.sequence);
    PackRefinesLayout(s'.ms, worker', s'.sequence);
    LayoutOrder(s.ms, worker, s.sequence, s'.ms, worker', s'.sequence);
    if IdOf(worker, s) != IdOf(worker', s') {
      CodesDistinctIff(IdOf(worker, s), IdOf(worker', s'));
    }
  }

  // ---------- gap freedom ----------

  predicate CountsUpFrom(s: seq<int>, start: int) {
    forall i :: 0 <= i < |s| ==> s[i] == start + i
  }

  lemma {:induction false} AtNone(h: seq<Stamp>, ms: int)
    requires forall i :: 0 <= i < |h| ==> h[i].ms < ms
    ensures At(h, ms) == []
  {
    if h != [] {
      AtNone(h[..|h| - 1], ms);
    }
  }

  /** How many sequence numbers the current millisecond has used is exactly what
      the `sequence` field says. */
  lemma {:induction false} SequencesAt(worker: int, run: seq<Attempt>, ms: int)
    requires 0 <= worker <= MAX_WORKER_ID && LegalRun(worker, run)
    ensures CountsUpFrom(At(History(worker, run), ms), FirstSequence(ms))
    ensures ms == After(worker, run).lastMs ==>
              |At(History(worker, run), ms)| == After(worker, run).sequence + 1 - FirstSequence(ms)
    ensures ms > After(worker, run).lastMs ==> At(History(worker, run), ms) == []
  {
    if run != [] {
      var prev, last := run[..|run| - 1], run[|run| - 1];
      SequencesAt(worker, prev, ms);
      HistoryIncreases(worker, prev);
      var h, h', g := History(worker, prev), History(worker, run), After(worker, run);
      if last.first >= After(worker, prev).lastMs {
        assert h' == h + [Stamp(g.lastMs, g.sequence)];
        assert h'[..|h'| - 1] == h;
      } else {
        assert h' == h;
      }
    }
  }

  /** The sequence numbers issued in one millisecond are exactly 0..k-1, in order
      (1..k at the Unix epoch); there are at most 4096 of them. */
  lemma GapFree(worker: int, run: seq<Attempt>, ms: int)
    requires 0 <= worker <= MAX_WORKER_ID && LegalRun(worker, run)
    ensures var s := At(History(worker, run), ms);
            |s| <= 4096 && s == seq(|s|, i => FirstSequence(ms) + i)
  {
    SequencesAt(worker, run, ms);
    HistoryIncreases(worker, run);
    var h := History(worker, run);
    var s := At(h, ms);
    if s != [] {
      var i := AtSource(h, ms, |s| - 1);
      assert h[i].sequence == FirstSequence(ms) + |s| - 1;
    }
  }

  lemma {:induction false} AtSource(h: seq<Stamp>, ms: int, k: nat) returns (i: nat)
    requires k < |At(h, ms)|
    ensures i < |h| && h[i] == Stamp(ms, At(h, ms)[k])
  {
    var prev := h[..|h| - 1];
    if k < |At(prev, ms)| {
      i := AtSource(prev, ms, k);
    } else {
      i := |h| - 1;
    }
  }

  /** The next call busy-waits exactly when it reads the current millisecond again
      and all 4096 numbers of that millisecond are taken (4095 at the Unix epoch). */
  lemma SpinsOnlyWhenExhausted(worker: int, run: seq<Attempt>, first: int)
    requires 0 <= worker <= MAX_WORKER_ID && LegalRun(worker, run)
    ensures Spins(After(worker, run), first)
       <==> first == After(worker, run).lastMs
            && |At(History(worker, run), first)| == 4096 - FirstSequence(first)
  {
    SequencesAt(worker, run, After(worker, run).lastMs);
    HistoryIncreases(worker, run);
  }

  // ---------- the history decides ----------

  /** What the i-th call of the run returned. */
  function OutcomeAt(worker: int, run: seq<Attempt>, i: nat): Outcome
    requires i < |run|
  {
    NextOutcome(After(worker, run[..i]), run[i].first, run[i].waited)
  }

  lemma {:induction false} LegalPrefix(worker: int, run: seq<Attempt>, n: nat)
    requires LegalRun(worker, run) && n <= |run|
    ensures LegalRun(worker, run[..n])
  {
    if n < |run| {
      assert run[..|run| - 1][..n] == run[..n];
      LegalPrefix(worker, run[..|run| - 1], n);
    } else {
      assert run[..n] == run;
    }
  }

  /** The i-th attempt of a run is one legal step of the generator. */
  lemma AttemptAt(worker: int, run: seq<Attempt>, i: nat)
    requires 0 <= worker <= MAX_WORKER_ID && LegalRun(worker, run) && i < |run|
    ensures var g := After(worker, run[..i]);
            && ValidGen(g) && g.worker == worker
            && Legal(g, run[i].first, run[i].waited)
            && After(worker, run[..i + 1]) == NextGen(g, run[i].first, run[i].waited)
  {
    LegalPrefix(worker, run, i);
    LegalPrefix(worker, run, i + 1);
    HistoryIncreases(worker, run[..i]);
    var upTo := run[..i + 1];
    assert upTo[..|upTo| - 1] == run[..i] && upTo[|upTo| - 1] == run[i];
  }

  lemma LatestStamp(worker: int, run: seq<Attempt>)
    requires 0 <= worker <= MAX_WORKER_ID && LegalRun(worker, run)
    ensures History(worker, run) == [] ==> After(worker, run) == Fresh(worker)
    ensures var h := History(worker, run);
            h != [] ==> h[|h| - 1] == Stamp(After(worker, run).lastMs, After(worker, run).sequence)
  {
  }

  /** The generator told without its fields, by the stamps issued so far alone. A call
      fails exactly when its reading is negative or below a stamp issued earlier, and
      leaves the history alone. Otherwise its ID carries the reading itself, or the one
      that ended its wait if all numbers of that millisecond are taken, and the next
      free number of that millisecond. */
  lemma NextFromHistory(worker: int, run: seq<Attempt>, i: nat)
    requires 0 <= worker <= MAX_WORKER_ID && LegalRun(worker, run) && i < |run|
    ensures var h, h', a := History(worker, run[..i]), History(worker, run[..i + 1]), run[i];
            match OutcomeAt(worker, run, i)
            case ClockBackwards(byMs) =>
              && (a.first < 0 || exists s :: s in h && a.first < s.ms)
              && h' == h
              && a.first + byMs == if h == [] then 0 else h[|h| - 1].ms
            case Issued(id) =>
              && a.first >= 0 && (forall s :: s in h ==> s.ms <= a.first)
              && (var exhausted := |At(h, a.first)| == 4096 - FirstSequence(a.first);
                  var ms := if exhausted then a.waited else a.first;
                  && (exhausted ==> a.waited > a.first)
                  && h' == h + [Stamp(ms, FirstSequence(ms) + |At(h, ms)|)]
                  && id == IdOf(worker, h'[|h|]))
  {
    hide Pack, LegalRun, After, At;
    AttemptAt(worker, run, i);
    LegalPrefix(worker, run, i);
    var prev, a := run[..i], run[i];
    LatestStamp(worker, prev);
    HistoryIncreases(worker, prev);
    SpinsOnlyWhenExhausted(worker, prev, a.first);
    SequencesAt(worker, prev, a.first);
    SequencesAt(worker, prev, a.waited);
    assert run[..i + 1][..i] == prev;
  }

  /** The reading that decided the i-th call. */
  function Deciding(worker: int, run: seq<Attempt>, i: nat): int
    requires i < |run|
  {
    if Spins(After(worker, run[..i]), run[i].first) then run[i].waited else run[i].first
  }

  lemma {:induction false} LastMsBound(worker: int, run: seq<Attempt>, n: nat, bound: int)
    requires 0 <= worker <= MAX_WORKER_ID && LegalRun(worker, run) && n <= |run| && bound >= 0
    requires forall i: nat :: i < n ==> Deciding(worker, run, i) <= bound
    ensures After(worker, run[..n]).lastMs <= bound
  {
    if n > 0 {
      LastMsBound(worker, run, n - 1, bound);
      AttemptAt(worker, run, n - 1);
      assert Deciding(worker, run, n - 1) <= bound;
    }
  }

  /** On a clock that starts at or after zero and never steps back, no call fails. */
  lemma {:induction false} SteadyClockNeverFails(worker: int, run: seq<Attempt>, n: nat)
    requires 0 <= worker <= MAX_WORKER_ID && LegalRun(worker, run) && n <= |run|
    requires forall i: nat :: i < |run| ==> run[i].first >= 0
    requires forall i: nat, j: nat :: i < j < |run| ==> Deciding(worker, run, i) <= run[j].first
    ensures |History(worker, run[..n])| == n
    ensures forall i: nat :: i < n ==> OutcomeAt(worker, run, i).Issued?
  {
    hide LegalRun, After, At, Deciding, NextOutcome;
    if n > 0 {
      SteadyClockNeverFails(worker, run, n - 1);
      LastMsBound(worker, run, n - 1, run[n - 1].first);
      AttemptAt(worker, run, n - 1);
      NextAdvances(After(worker, run[..n - 1]), run[n - 1].first, run[n - 1].waited);
      NextFromHistory(worker, run, n - 1);
    }
  }

  // ---------- rate ----------

  lemma {:induction false} KeysSpread(h: seq<Stamp>, i: nat, j: nat)
    requires Increasing(h) && i <= j < |h|
    ensures StampKey(h[j]) - StampKey(h[i]) >= j - i
    decreases j - i
  {
    if i < j {
      KeysSpread(h, i, j - 1);
    }
  }

  /** At most b - a numbers lie in [a, b). */
  lemma {:induction false} IndicesBound(s: set<int>, a: nat, b: nat)
    requires a <= b && forall i :: i in s ==> a <= i < b
    ensures |s| <= b - a
  {
    if a == b {
      assert forall i :: i !in s;
    } else {
      IndicesBound(s - {b - 1}, a, b - 1);
    }
  }

  /** Index of the first stamp at or after a millisecond. */
  lemma {:induction false} Split(h: seq<Stamp>, ms: int) returns (n: nat)
    requires Increasing(h)
    requires forall i :: 0 <= i < |h| ==> 0 <= h[i].sequence <= MAX_SEQUENCE
    ensures n <= |h|
    ensures forall i :: 0 <= i < n ==> h[i].ms < ms
    ensures forall i :: n <= i < |h| ==> h[i].ms >= ms
  {
    n := |h|;
    while n > 0 && h[n - 1].ms >= ms
      invariant n <= |h|
      invariant forall i :: n <= i < |h| ==> h[i].ms >= ms
    {
      n := n - 1;
    }
    if n > 0 {
      forall i | 0 <= i < n ensures h[i].ms < ms {
        assert StampKey(h[i]) <= StampKey(h[n - 1]);
      }
    }
  }

  /** Any window of t milliseconds holds at most 4096 * t IDs of one generator. */
  lemma RateBound(worker: int, run: seq<Attempt>, from: int, t: nat)
    requires 0 <= worker <= MAX_WORKER_ID && LegalRun(worker, run)
    ensures var h := History(worker, run);
            |set i | 0 <= i < |h| && from <= h[i].ms < from + t| <= 4096 * t
  {
    hide LegalRun, History;
    HistoryIncreases(worker, run);
    var h := History(worker, run);
    var a := Split(h, from);
    var b := Split(h, from + t);
    var inWindow := set i | 0 <= i < |h| && from <= h[i].ms < from + t;
    if a < b {
      IndicesBound(inWindow, a, b);
      KeysSpread(h, a, b - 1);
    } else {
      assert inWindow == {};
    }
  }

  // ---------- restarts ----------

  predicate Used(h: seq<Stamp>, ms: int) {
    exists i :: 0 <= i < |h| && h[i].ms == ms
  }

  lemma {:induction false} UsedFromFirst(worker: int, run: seq<Attempt>, ms: int)
    requires 0 <= worker <= MAX_WORKER_ID && LegalRun(worker, run)
    requires Used(History(worker, run), ms)
    ensures Stamp(ms, FirstSequence(ms)) in History(worker, run)
  {
    var h := History(worker, run);
    AtUsed(h, ms);
    SequencesAt(worker, run, ms);
    var i := AtSource(h, ms, 0);
  }

  lemma {:induction false} AtUsed(h: seq<Stamp>, ms: int)
    requires Used(h, ms)
    ensures |At(h, ms)| > 0
  {
    if h[|h| - 1].ms != ms {
      assert Used(h[..|h| - 1], ms) by {
        var i :| 0 <= i < |h| && h[i].ms == ms;
        assert h[..|h| - 1][i] == h[i];
      }
      AtUsed(h[..|h| - 1], ms);
    }
  }

  /** A restarted generator forgets where it was. Two lives of one worker ID repeat
      an ID exactly when they issued in a common millisecond; so a new life is safe
      if it issues only after the last millisecond of the old one. */
  lemma RestartRepeatsIff(worker: int, life: seq<Attempt>, life': seq<Attempt>)
    requires 0 <= worker <= MAX_WORKER_ID && LegalRun(worker, life) && LegalRun(worker, life')
    requires forall s :: s in History(worker, life) || s in History(worker, life') ==> InWindow(s.ms)
    ensures (exists s, s' :: s in History(worker, life) && s' in History(worker, life')
                             && IdOf(worker, s) == IdOf(worker, s'))
       <==> (exists ms :: Used(History(worker, life), ms) && Used(History(worker, life'), ms))
  {
    hide Pack, LegalRun, History;
    var h, h' := History(worker, life), History(worker, life');
    if ms :| Used(h, ms) && Used(h', ms) {
      UsedFromFirst(worker, life, ms);
      UsedFromFirst(worker, life', ms);
      var s := Stamp(ms, FirstSequence(ms));
      assert s in h && s in h' && IdOf(worker, s) == IdOf(worker, s);
    }
    if s, s' :| s in h && s' in h' && IdOf(worker, s) == IdOf(worker, s') {
      HistoryIncreases(worker, life);
      HistoryIncreases(worker, life');
      PackOrder(s.ms, worker, s.sequence, s'.ms, worker, s'.sequence);
      assert Used(h, s.ms) && Used(h', s.ms);
    }
  }
}
