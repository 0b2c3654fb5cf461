/** What callers of Resolve are told, over whole runs with interleaved requests. */
module SystemAnswers {
  import opened Wrappers
  import opened Int64
  import opened Links
  import opened Stores
  import opened Snowflake
  import opened LinkService
  import opened System
  import opened SystemSafety
  import opened SystemHistory
  import Base62

  // ---------- what an answer may be ----------

  /** A value served after the expiry time, but within the lag of cache writes. */
  predicate StaleHit(s: State, code: string, a: Result<Resolved, Error>) {
    && code in s.rows && a == Ok(ResolvedOf(s.rows[code]))
    && s.rows[code].expiresAt.Some?
    && s.rows[code].expiresAt.value < s.now <= s.rows[code].expiresAt.value + s.lag
  }

  /** The answer of the table alone in state s, a stale hit, or a database error. */
  predicate Justified(s: State, code: string, a: Result<Resolved, Error>) {
    a == Uncached(s.rows, code, s.now) || StaleHit(s, code, a) || a == Err(Database)
  }

  /** The answer is justified by state n of the trace. */
  predicate DecidedAt(t: Trace, n: nat, code: string, a: Result<Resolved, Error>) {
    n < |t.states| && Justified(t.states[n], code, a)
  }

  predicate TaskTimed(t: Trace, k: nat, task: Task) {
    match task
    case Probing(_, began) => began < k
    case Missed(_, began) => began < k
    case Fetched(_, began, _) => began < k
    case Checked(code, began, row, n) => began <= n < k && DecidedAt(t, n, code, Ok(ResolvedOf(row)))
    case CheckedTimed(code, began, row, n, _, _) => began <= n < k && DecidedAt(t, n, code, Ok(ResolvedOf(row)))
    case _ => true
  }

  predicate ReplyTimed(t: Trace, k: nat, r: Reply) {
    r.began <= r.decided <= r.at < k && DecidedAt(t, r.decided, r.code, r.answer)
  }

  /** Everything pending or answered in state k was decided within its call. */
  predicate Timed(t: Trace, k: nat)
    requires k < |t.states|
  {
    var s := t.states[k];
    && s.steps == k
    && (forall q :: q in s.jobs ==> TaskTimed(t, k, s.jobs[q].task))
    && (forall q :: q in s.replies ==> ReplyTimed(t, k, s.replies[q]))
  }

  // ---------- every step keeps the timing ----------

  lemma TimedTask(t: Trace, k: nat, q: nat, task: Task)
    requires k < |t.states| && Timed(t, k) && Inv(t.states[k])
    requires k < |t.events| && Follows(t.states[k], t.events[k], q, task)
    ensures TaskTimed(t, k + 1, task)
  {
    hide RowsInv, CacheInv, ClicksInv, DrawsInv;
    var s := t.states[k];
    if q in s.jobs {
      assert TaskTimed(t, k, s.jobs[q].task) && TaskOk(s, q, s.jobs[q].task);
    }
  }

  lemma TimedReply(t: Trace, k: nat, q: nat, r: Reply)
    requires k < |t.states| && Timed(t, k) && Inv(t.states[k])
    requires k < |t.events| && q in t.states[k].jobs
    requires Replied(t.states[k], t.events[k], q, t.states[k].jobs[q].task, r)
    ensures ReplyTimed(t, k + 1, r)
  {
    hide RowsInv, ClicksInv, DrawsInv;
    var s := t.states[k];
    var task := s.jobs[q].task;
    assert TaskTimed(t, k, task) && TaskOk(s, q, task);
    if task.Probing? {
      assert EntryOk(s, task.code, s.cache[task.code]);
    }
  }

  lemma {:induction false} AlwaysTimed(cfg: Config, t: Trace, k: nat)
    requires cfg.cacheTTL <= MAX_DURATION && Behaviour(cfg, t) && k < |t.states|
    ensures Timed(t, k)
  {
    hide Effect, Enabled, Inv, TaskTimed, ReplyTimed, Follows, Replied;
    if k > 0 {
      var s, s' := t.states[k - 1], t.states[k];
      AlwaysTimed(cfg, t, k - 1);
      Reachable(cfg, t, k - 1);
      assert StepAt(t, k - 1);
      EffectStepped(s, t.events[k - 1]);
      forall q | q in s'.jobs ensures TaskTimed(t, k, s'.jobs[q].task) {
        if q in s.jobs && s'.jobs[q] == s.jobs[q] {
          TimedLater(t, k - 1, q);
        } else {
          TimedTask(t, k - 1, q, s'.jobs[q].task);
        }
      }
      forall q | q in s'.replies ensures ReplyTimed(t, k, s'.replies[q]) {
        if q in s.replies && s'.replies[q] == s.replies[q] {
          assert ReplyTimed(t, k - 1, s.replies[q]);
          ReplyLater(t, k - 1, s.replies[q]);
        } else {
          TimedReply(t, k - 1, q, s'.replies[q]);
        }
      }
    }
  }

  lemma TimedLater(t: Trace, k: nat, q: nat)
    requires k < |t.states| && Timed(t, k) && q in t.states[k].jobs
    ensures TaskTimed(t, k + 1, t.states[k].jobs[q].task)
  {
    hide Justified;
    assert TaskTimed(t, k, t.states[k].jobs[q].task);
  }

  lemma ReplyLater(t: Trace, k: nat, r: Reply)
    requires ReplyTimed(t, k, r)
    ensures ReplyTimed(t, k + 1, r)
  {
  }

  // ---------- states of a run in order ----------

  /** What only grows along a run. */
  predicate Later(s: State, s': State) {
    && s.now <= s'.now && s.lag <= s'.lag
    && (forall c :: c in s.rows ==> c in s'.rows && s'.rows[c] == s.rows[c])
  }

  lemma ApplyLater(s: State, e: Event)
    requires Enabled(s, e)
    ensures Later(s, Apply(s, e))
  {
    hide Effect, Enabled, Follows, Replied;
    EffectStepped(s, e);
  }

  lemma {:induction false} TraceLater(cfg: Config, t: Trace, i: nat, j: nat)
    requires Behaviour(cfg, t) && i <= j < |t.states|
    ensures Later(t.states[i], t.states[j])
    decreases j
  {
    hide Apply, Enabled;
    if i < j {
      TraceLater(cfg, t, i, j - 1);
      assert StepAt(t, j - 1);
      ApplyLater(t.states[j - 1], t.events[j - 1]);
    }
  }

  // ---------- the theorems ----------

  /** Every answer of every Resolve, in every interleaving, is the answer of the
      table alone at an instant inside the call, or a database error, or a value
      served after the expiry time within the lag of cache writes. In plain terms: a
      value is the row's and was decided at most the lag after the expiry time, not
      found was said of an absent row and expired of a row past its expiry time. */
  lemma EveryAnswerJustified(cfg: Config, t: Trace, k: nat, q: nat)
    requires cfg.cacheTTL <= MAX_DURATION && Behaviour(cfg, t) && k < |t.states| && q in t.states[k].replies
    ensures var r := t.states[k].replies[q];
            && r.began <= r.decided <= r.at < k
            && var s := t.states[r.decided];
            && Justified(s, r.code, r.answer)
            && match r.answer
               case Ok(res) =>
                 && r.code in s.rows
                 && res.linkID == s.rows[r.code].id && res.originalURL == s.rows[r.code].originalURL
                 && (s.rows[r.code].expiresAt.Some? ==> s.now <= s.rows[r.code].expiresAt.value + s.lag)
               case Err(e) =>
                 || (e == NotFound && r.code !in s.rows)
                 || (e == Expired && r.code in s.rows && s.rows[r.code].expiresAt.Some?
                     && s.now > s.rows[r.code].expiresAt.value)
                 || e == Database
  {
    hide Behaviour;
    AlwaysTimed(cfg, t, k);
    assert ReplyTimed(t, k, t.states[k].replies[q]);
  }

  /** If no cache write lagged behind its TTL, every answer is a database error or
      exactly what the service without a cache answers at an instant of the call. */
  lemma ExactWithoutLag(cfg: Config, t: Trace, k: nat, q: nat)
    requires cfg.cacheTTL <= MAX_DURATION && Behaviour(cfg, t) && k < |t.states| && q in t.states[k].replies
    requires t.states[k].lag == 0
    ensures var r := t.states[k].replies[q];
            && r.began <= r.decided <= r.at < k
            && (r.answer == Err(Database)
                || r.answer == Uncached(t.states[r.decided].rows, r.code, t.states[r.decided].now))
            && (r.answer.Ok? && t.states[r.decided].rows[r.code].expiresAt.Some? ==>
                  t.states[r.decided].now <= t.states[r.decided].rows[r.code].expiresAt.value)
  {
    hide Behaviour, Uncached;
    EveryAnswerJustified(cfg, t, k, q);
    TraceLater(cfg, t, t.states[k].replies[q].decided, k);
  }

  /** Read-your-writes, no negative caching: a Resolve that began after the row was
      in the table and was answered no later than the expiry time returns the row's
      ID and URL or a database error, whatever misses and faults came before. */
  lemma ReadYourWrites(cfg: Config, t: Trace, i: nat, k: nat, q: nat)
    requires cfg.cacheTTL <= MAX_DURATION && Behaviour(cfg, t) && k < |t.states| && q in t.states[k].replies
    requires var r := t.states[k].replies[q];
             && i <= r.began && r.at < k && i < |t.states| && r.code in t.states[i].rows
             && !IsExpired(t.states[i].rows[r.code], t.states[r.at].now)
    ensures var r := t.states[k].replies[q];
            r.answer == Err(Database) || r.answer == Ok(ResolvedOf(t.states[i].rows[r.code]))
  {
    hide Behaviour;
    EveryAnswerJustified(cfg, t, k, q);
    var r := t.states[k].replies[q];
    TraceLater(cfg, t, i, r.decided);
    TraceLater(cfg, t, r.decided, r.at);
  }

  /** Without lag, answers given one after the other only move from not found to
      found to expired, and two found answers are the same. */
  lemma StatusMovesForward(cfg: Config, t: Trace, k: nat, q: nat, q': nat)
    requires cfg.cacheTTL <= MAX_DURATION && Behaviour(cfg, t) && k < |t.states| && t.states[k].lag == 0
    requires q in t.states[k].replies && q' in t.states[k].replies
    requires var r, r' := t.states[k].replies[q], t.states[k].replies[q'];
             && r.code == r'.code && r.at <= r'.began
             && r.answer != Err(Database) && r'.answer != Err(Database)
    ensures var r, r' := t.states[k].replies[q], t.states[k].replies[q'];
            && (r.answer.Ok? ==> r'.answer.Ok? || r'.answer == Err(Expired))
            && (r.answer == Err(Expired) ==> r'.answer == Err(Expired))
            && (r.answer.Ok? && r'.answer.Ok? ==> r.answer == r'.answer)
  {
    hide Behaviour;
    ExactWithoutLag(cfg, t, k, q);
    ExactWithoutLag(cfg, t, k, q');
    TraceLater(cfg, t, t.states[k].replies[q].decided, t.states[k].replies[q'].decided);
  }

  /** The top theorem. In every state of every behaviour: no row about to be inserted
      shares its ID or its code with a row; every redirect ever answered and every
      click event published carries exactly the ID and URL of the row of its code,
      which is the encoding of that ID; and no two rows or events share an ID. */
  lemma NoCollisionAndAgreement(cfg: Config, t: Trace, k: nat)
    requires cfg.cacheTTL <= MAX_DURATION && Behaviour(cfg, t) && k < |t.states|
    ensures var s := t.states[k];
            && (forall q :: q in s.jobs && s.jobs[q].task.Built? ==> !Conflicts(s.rows, s.jobs[q].task.link))
            && (forall q :: q in s.replies && s.replies[q].answer.Ok? ==>
                  var r := s.replies[q];
                  r.code in s.rows && r.answer == Ok(ResolvedOf(s.rows[r.code]))
                  && r.code == Base62.Code(r.answer.value.linkID))
            && (forall ev :: ev in s.clicks ==>
                  ev.shortCode in s.rows && ResolvedOf(s.rows[ev.shortCode]) == Resolved(ev.linkID, ev.originalURL)
                  && ev.shortCode == Base62.Code(ev.linkID))
            && (forall c, c' :: c in s.rows && c' in s.rows && s.rows[c].id == s.rows[c'].id ==> c == c')
            && (forall c, ev :: c in s.rows && ev in s.clicks ==> s.rows[c].id != ev.eventID)
            && (forall i, j :: 0 <= i < j < |s.clicks| ==> s.clicks[i].eventID != s.clicks[j].eventID)
  {
    hide Behaviour, Base62.Code, Conflicts;
    var s := t.states[k];
    AllAgree(cfg, t, k);
    IdsDistinct(cfg, t, k);
    forall q | q in s.jobs && s.jobs[q].task.Built? ensures !Conflicts(s.rows, s.jobs[q].task.link) {
      NoCollision(cfg, t, k, q);
    }
    forall q | q in s.replies && s.replies[q].answer.Ok?
      ensures var r := s.replies[q];
              r.code in s.rows && r.answer == Ok(ResolvedOf(s.rows[r.code]))
              && r.code == Base62.Code(r.answer.value.linkID)
    {
      EveryAnswerJustified(cfg, t, k, q);
      TraceLater(cfg, t, s.replies[q].decided, k);
    }
  }
}
