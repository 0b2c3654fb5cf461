/** The bound on expiry staleness is attained: a concrete family of runs. */
module SystemWitness {
  import opened Wrappers
  import opened Int64
  import opened Links
  import opened Stores
  import opened Snowflake
  import opened LinkService
  import opened System
  import opened SystemAnswers
  import opened SystemRefinement
  import Base62

  const CFG: Config := Config(3600, 0)

  /** A link that expires at 10, stored but not cached, at time 9. */
  lemma Stored() returns (t: Trace, s: State, row: Link)
    ensures Ends(CFG, t, s)
    ensures row.id > 0 && row.originalURL == "x" && row.expiresAt == Some(10)
    ensures s.rows == map[row.shortCode := row] && s.cache == map[] && s.jobs == map[] && s.replies == map[]
    ensures s.nextJob == 1 && s.now == 9 && s.lag == 0 && s.cacheTTL == 3600 && 0 in s.lives
  {
    hide Ends, Behaviour, Base62.Code, Pack;
    var g, ms := Fresh(0), EPOCH + 1;
    PackPositiveIff(ms, 0, 0);
    t, s := Trace([], [Start(3600, 0)]), Start(3600, 0);
    assert Ends(CFG, t, s) by { Empty(); }
    t, s := Step(CFG, t, s, Boot(0));
    t, s := Step(CFG, t, s, SubmitCreate(0, "u", "x", Some(10)));
    assert NextOutcome(g, ms, ms) == Issued(Pack(ms, 0, 0));
    t, s := Step(CFG, t, s, DrawId(0, ms, ms));
    t, s := Step(CFG, t, s, BuildLink(0));
    row := s.jobs[0].task.link;
    t, s := Step(CFG, t, s, InsertRow(0, Healthy));
    t, s := Step(CFG, t, s, Abandon(0));
    t, s := Step(CFG, t, s, Tick(9));
    assert s.jobs == map[];
  }

  lemma Empty()
    ensures Ends(CFG, Trace([], [Start(3600, 0)]), Start(3600, 0))
  {
  }

  /** A redirect misses the cache and finds the row. */
  lemma Miss(t: Trace, s: State, row: Link) returns (t': Trace, s': State, q: nat)
    requires Ends(CFG, t, s) && 0 in s.lives && row.shortCode in s.rows && s.rows[row.shortCode] == row
    requires s.cache == map[] && s.nextJob !in s.jobs
    ensures Ends(CFG, t', s') && q == s.nextJob
    ensures s' == s.(jobs := s'.jobs, nextJob := q + 1, steps := s'.steps)
    ensures q in s'.jobs && s'.jobs == s.jobs[q := s'.jobs[q]]
    ensures s'.jobs[q].task.Fetched? && s'.jobs[q].task.code == row.shortCode && s'.jobs[q].task.row == row
  {
    hide Ends, Behaviour;
    t', s', q := t, s, s.nextJob;
    t', s' := Step(CFG, t', s', SubmitRedirect(0, row.shortCode));
    t', s' := Step(CFG, t', s', Probe(q, false));
    t', s' := Step(CFG, t', s', FetchRow(q, false));
    assert s'.jobs == s.jobs[q := s'.jobs[q]];
  }

  /** For every lag of at least 2 there is a run in which one caller has been told
      that the link expired, and a later one is still redirected, at exactly the
      expiry time plus the lag: a slow request wrote its entry in between. */
  lemma StaleAfterExpired(d: int) returns (t: Trace, code: string)
    requires d >= 2
    ensures Behaviour(CFG, t)
    ensures var s := t.states[|t.states| - 1];
            && s.lag == d && 2 in s.replies && 3 in s.replies && code in s.rows
            && s.replies[2].code == code && s.replies[2].answer == Err(Expired)
            && s.replies[3].code == code && s.replies[3].answer == Ok(ResolvedOf(s.rows[code]))
            && s.replies[2].at < s.replies[3].began
            && s.rows[code].expiresAt == Some(s.now - d)
  {
    hide Behaviour;
    var s, row, q;
    t, s, row := Stored();
    code := row.shortCode;
    t, s, q := Miss(t, s, row);
    t, s := Slow(t, s, row);
    t, s, q := Miss(t, s, row);
    t, s := Late(t, s, row, d);
    t, s := Hit(t, s, row, d);
  }

  /** The slow request passes the expiry check and computes a TTL of 1. */
  lemma Slow(t: Trace, s: State, row: Link) returns (t': Trace, s': State)
    requires Ends(CFG, t, s) && s.now == 9 && s.cacheTTL == 3600 && row.expiresAt == Some(10)
    requires s.jobs.Keys == {1} && s.jobs[1].task.Fetched?
    requires s.jobs[1].task.code == row.shortCode && s.jobs[1].task.row == row
    ensures Ends(CFG, t', s') && s' == s.(jobs := s'.jobs, steps := s'.steps, now := 11)
    ensures s'.jobs.Keys == {1} && s'.jobs[1].task.CheckedTimed?
    ensures s'.jobs[1].task.code == row.shortCode && s'.jobs[1].task.row == row
    ensures s'.jobs[1].task.ttl == 1 && s'.jobs[1].task.at == 9
  {
    hide Ends, Behaviour;
    t', s' := t, s;
    t', s' := Step(CFG, t', s', CheckExpiry(1));
    t', s' := Step(CFG, t', s', ComputeTtl(1));
    t', s' := Step(CFG, t', s', Tick(11));
  }

  /** The second request is told Expired; then the slow one writes its entry. */
  lemma Late(t: Trace, s: State, row: Link, d: int) returns (t': Trace, s': State)
    requires d >= 2 && Ends(CFG, t, s) && s.now == 11 && s.lag == 0
    requires row.expiresAt == Some(10) && s.cache == map[] && s.replies == map[]
    requires s.jobs.Keys == {1, 2} && s.jobs[1].task.CheckedTimed? && s.jobs[2].task.Fetched?
    requires s.jobs[1].task.code == s.jobs[2].task.code == row.shortCode
    requires s.jobs[1].task.row == s.jobs[2].task.row == row
    requires s.jobs[1].task.ttl == 1 && s.jobs[1].task.at == 9
    ensures Ends(CFG, t', s')
    ensures s' == s.(now := 9 + d, lag := d, cache := map[row.shortCode := Entry(ResolvedOf(row), 10 + d)],
                     jobs := s'.jobs, replies := s'.replies, steps := s'.steps)
    ensures 2 in s'.replies && s'.replies[2].code == row.shortCode && s'.replies[2].answer == Err(Expired)
    ensures s'.replies[2].at < s'.steps
  {
    hide Ends, Behaviour;
    t', s' := t, s;
    t', s' := Step(CFG, t', s', CheckExpiry(2));
    t', s' := Step(CFG, t', s', Tick(9 + d));
    t', s' := Step(CFG, t', s', WarmCache(1, Healthy));
  }

  /** A third request is served from the cache at the last moment. */
  lemma Hit(t: Trace, s: State, row: Link, d: int) returns (t': Trace, s': State)
    requires d >= 2 && Ends(CFG, t, s) && s.now == 9 + d && 0 in s.lives && s.nextJob == 3
    requires row.id > 0 && row.originalURL == "x"
    requires s.cache == map[row.shortCode := Entry(ResolvedOf(row), 10 + d)]
    requires 2 in s.replies && s.replies[2].at < s.steps
    ensures Ends(CFG, t', s') && s'.rows == s.rows && s'.lag == s.lag && s'.now == 10 + d
    ensures 2 in s'.replies && s'.replies[2] == s.replies[2] && 3 in s'.replies
    ensures s'.replies[3].code == row.shortCode && s'.replies[3].answer == Ok(ResolvedOf(row))
    ensures s'.replies[2].at < s'.replies[3].began
  {
    hide Ends, Behaviour;
    t', s' := t, s;
    t', s' := Step(CFG, t', s', Tick(10 + d));
    t', s' := Step(CFG, t', s', SubmitRedirect(0, row.shortCode));
    t', s' := Step(CFG, t', s', Probe(3, false));
  }
}
