/** Where everything in a state comes from: rows, answers, delays and click events
    traced back to the events of the run that caused them. */
module SystemHistory {
  import opened Wrappers
  import opened Links
  import opened Stores
  import opened Snowflake
  import opened LinkService
  import opened Redirects
  import opened System
  import opened SystemSafety
  import Base62

  // ---------- what one step may leave behind ----------

  function TaskOf(s: State, q: nat): Option<Task> {
    if q in s.jobs then Some(s.jobs[q].task) else None
  }

  /** A task that event e in state s may leave request q with. */
  predicate Follows(s: State, e: Event, q: nat, t: Task) {
    var was := TaskOf(s, q);
    match t
    case Requested(user, url, exp) =>
      q == s.nextJob && e.SubmitCreate? && e.userID == user && e.url == url && e.expiresAt == exp
    case Numbered(user, url, exp, _) => was == Some(Requested(user, url, exp))
    case Built(l) =>
      e == BuildLink(q) && was == Some(Numbered(l.userID, l.originalURL, l.expiresAt, l.id)) && l.createdAt == s.now
    case Saved(l) => was == Some(Built(l))
    case SavedTimed(l, _, at) => was == Some(Saved(l)) && e == ComputeTtl(q) && at == s.now
    case Probing(code, began) => q == s.nextJob && began == s.steps && e.SubmitRedirect? && e.code == code
    case Missed(code, began) => was == Some(Probing(code, began))
    case Fetched(code, began, row) => was == Some(Missed(code, began))
    case Checked(code, began, row, k) =>
      was == Some(Fetched(code, began, row)) && k == s.steps && !IsExpired(row, s.now)
    case CheckedTimed(code, began, row, k, _, at) =>
      was == Some(Checked(code, began, row, k)) && e == ComputeTtl(q) && at == s.now
    case Redirected(_, _) => was.Some?
  }

  /** A reply that event e may give request q, by the task that gave it. */
  predicate Replied(s: State, e: Event, q: nat, t: Task, r: Reply) {
    && r.at == s.steps
    && match t
       case Probing(code, began) =>
         e == Probe(q, false) && r.code == code && r.began == began && r.decided == s.steps && r.answer.Ok?
         && CacheGet(s.cache, code, s.now) == Some(r.answer.value)
       case Missed(code, began) =>
         r.code == code && r.began == began && r.decided == s.steps
         && ((r.answer == Err(Database) && e == FetchRow(q, true))
             || (r.answer == Err(NotFound) && e == FetchRow(q, false) && code !in s.rows))
       case Fetched(code, began, row) =>
         e == CheckExpiry(q) && r.code == code && r.began == began && r.decided == s.steps
         && r.answer == Err(Expired) && IsExpired(row, s.now)
       case CheckedTimed(code, began, row, k, _, _) =>
         e.WarmCache? && e.q == q && r.code == code && r.began == began && r.decided == k
         && r.answer == Ok(ResolvedOf(row))
       case _ => false
  }

  /** Instant at which the TTL of a pending cache write was computed. */
  function TimedAt(t: Task): int {
    if t.SavedTimed? || t.CheckedTimed? then t.at else 0
  }

  predicate Submits(e: Event) {
    e.SubmitCreate? || e.SubmitRedirect?
  }

  predicate Draws(e: Event) {
    e.DrawId? || e.PublishClick?
  }

  /** What only grows, and what only certain events touch. */
  predicate Framed(s: State, e: Event, s': State) {
    && s'.steps == s.steps && s.now <= s'.now && s.lag <= s'.lag
    && (forall c :: c in s.rows ==> c in s'.rows && s'.rows[c] == s.rows[c])
    && s.drawn <= s'.drawn
    && (!Draws(e) ==> s'.drawn == s.drawn)
    && (!Draws(e) && !e.Boot? && !e.Reboot? ==> s'.lives == s.lives)
    && (!e.PublishClick? ==> s'.clicks == s.clicks)
  }

  predicate Stepped(s: State, e: Event, s': State) {
    && Framed(s, e, s')
    && (forall q :: q in s'.jobs ==>
          || (q in s.jobs && s'.jobs[q] == s.jobs[q])
          || (Follows(s, e, q, s'.jobs[q].task)
              && (if Submits(e) then
                    s'.jobs[q].worker == e.w && (s'.jobs[q].task.Requested? || s'.jobs[q].task.Probing?)
                  else q in s.jobs && s'.jobs[q].worker == s.jobs[q].worker)))
    && (forall q :: q in s'.replies ==>
          (q in s.replies && s'.replies[q] == s.replies[q])
          || (q in s.jobs && Replied(s, e, q, s.jobs[q].task, s'.replies[q])))
    && (forall c :: c in s'.rows ==>
          (c in s.rows && s'.rows[c] == s.rows[c])
          || (e.InsertRow? && e.q in s.jobs && s.jobs[e.q].task == Built(s'.rows[c])))
    && (s'.lag == s.lag
        || (e.WarmCache? && e.q in s.jobs && s'.lag == s.now - TimedAt(s.jobs[e.q].task)
            && (s.jobs[e.q].task.SavedTimed? || s.jobs[e.q].task.CheckedTimed?)))
  }

  /** The parts that steps are made of, from a state s1 whose jobs are still those of s. */
  lemma FinishStepped(s: State, e: Event, s1: State, q: nat)
    requires Stepped(s, e, s1) && s1.jobs == s.jobs
    ensures Stepped(s, e, Finish(s1, q))
  {
    hide Follows, Replied, TimedAt;
  }

  lemma MoveStepped(s: State, e: Event, s1: State, q: nat, t: Task)
    requires Stepped(s, e, s1) && s1.jobs == s.jobs && q in s.jobs && !Submits(e) && Follows(s, e, q, t)
    ensures Stepped(s, e, Move(s1, q, t))
  {
    hide Follows, Replied, TimedAt;
  }

  lemma AnswerStepped(s: State, e: Event, s1: State, q: nat,
                      code: string, began: nat, decided: nat, a: Result<Resolved, Error>)
    requires Stepped(s, e, s1) && s1.jobs == s.jobs && q in s.jobs && !Submits(e)
    requires Replied(s, e, q, s.jobs[q].task, Reply(code, began, decided, s.steps, a))
    ensures Stepped(s, e, Answer(s1, q, code, began, decided, a))
  {
    hide Replied, TimedAt, Move, Finish;
    var s2 := s1.(replies := s1.replies[q := Reply(code, began, decided, s1.steps, a)]);
    assert Stepped(s, e, s2) by { hide Follows; }
    hide Stepped;
    match a
    case Ok(res) => MoveStepped(s, e, s2, q, Redirected(code, res));
    case Err(_) => FinishStepped(s, e, s2, q);
  }

  lemma SameStepped(s: State, e: Event)
    ensures Stepped(s, e, s)
  {
    hide Follows, Replied, TimedAt;
  }

  lemma ReadStepped(s: State, e: Event)
    requires Enabled(s, e) && (e.Probe? || e.FetchRow? || e.CheckExpiry?)
    ensures Stepped(s, e, Effect(s, e))
  {
    hide Stepped, CacheGet, IsExpired, Move, Answer;
    SameStepped(s, e);
    var t := s.jobs[e.q].task;
    match e
    case Probe(q, fails) =>
      match if fails then None else CacheGet(s.cache, t.code, s.now) {
        case Some(res) => AnswerStepped(s, e, s, q, t.code, t.began, s.steps, Ok(res));
        case None => MoveStepped(s, e, s, q, Missed(t.code, t.began));
      }
    case FetchRow(q, fails) =>
      match if fails then Err(Database) else Lookup(s.rows, t.code) {
        case Ok(row) => MoveStepped(s, e, s, q, Fetched(t.code, t.began, row));
        case Err(err) => AnswerStepped(s, e, s, q, t.code, t.began, s.steps, Err(err));
      }
    case CheckExpiry(q) =>
      if IsExpired(t.row, s.now) {
        AnswerStepped(s, e, s, q, t.code, t.began, s.steps, Err(Expired));
      } else {
        MoveStepped(s, e, s, q, Checked(t.code, t.began, t.row, s.steps));
      }
  }

  lemma InsertStepped(s: State, e: Event)
    requires Enabled(s, e) && e.InsertRow?
    ensures Stepped(s, e, Effect(s, e))
  {
    hide Conflicts, Follows, Replied, TimedAt, Move, Finish;
    var l := s.jobs[e.q].task.link;
    var s1 := s.(rows := Insert(s.rows, l, e.fault));
    ConflictsOnCode(s.rows, l);
    assert Stepped(s, e, s1);
    hide Stepped;
    FinishStepped(s, e, s1, e.q);
    assert Follows(s, e, e.q, Saved(l)) by { SavedFollows(s, e, l); }
    MoveStepped(s, e, s1, e.q, Saved(l));
  }

  lemma SavedFollows(s: State, e: Event, l: Link)
    requires e.InsertRow? && TaskOf(s, e.q) == Some(Built(l))
    ensures Follows(s, e, e.q, Saved(l))
  {
  }

  lemma BuildStepped(s: State, e: Event)
    requires Enabled(s, e) && (e.BuildLink? || e.ComputeTtl?)
    ensures Stepped(s, e, Effect(s, e))
  {
    hide Stepped, CacheTtlFor, Base62.Code, Move;
    SameStepped(s, e);
    var q, t := e.q, s.jobs[e.q].task;
    if e.BuildLink? {
      MoveStepped(s, e, s, q, Built(NewLink(t.id, t.url, t.userID, s.now, t.expiresAt)));
    } else if t.Saved? {
      MoveStepped(s, e, s, q, SavedTimed(t.link, CacheTtlFor(t.link, s.cacheTTL, s.now), s.now));
    } else {
      var ttl := CacheTtlFor(t.row, s.cacheTTL, s.now);
      MoveStepped(s, e, s, q, CheckedTimed(t.code, t.began, t.row, t.decided, ttl, s.now));
    }
  }

  lemma WarmStepped(s: State, e: Event)
    requires Enabled(s, e) && e.WarmCache?
    ensures Stepped(s, e, Effect(s, e))
  {
    hide CacheSet, Answer, Finish;
    var t := s.jobs[e.q].task;
    if t.SavedTimed? {
      var s1 := Warm(s, t.link.shortCode, t.link, t.ttl, t.at, e.fault);
      assert Stepped(s, e, s1) by { hide Follows, Replied; }
      FinishStepped(s, e, s1, e.q);
    } else {
      var s1 := Warm(s, t.code, t.row, t.ttl, t.at, e.fault);
      assert Stepped(s, e, s1) by { hide Follows, Replied; }
      hide Stepped;
      AnswerStepped(s, e, s1, e.q, t.code, t.began, t.decided, Ok(ResolvedOf(t.row)));
    }
  }

  lemma TakeStepped(s: State, e: Event, q: nat, use: Use, first: int, waited: int, s1: State)
    requires Draws(e) && q in s.jobs && CanDraw(s, s.jobs[q].worker, first, waited)
    requires NextOutcome(s.lives[s.jobs[q].worker].gen, first, waited).Issued?
    requires s1 == Take(s, q, use, first, waited).(clicks := s1.clicks)
    requires e.PublishClick? || s1.clicks == s.clicks
    ensures Stepped(s, e, s1)
  {
    hide Pack, NextGen, NextOutcome, Legal, Follows, Replied, TimedAt;
  }

  lemma DrawStepped(s: State, e: Event)
    requires Enabled(s, e) && Draws(e)
    ensures Stepped(s, e, Effect(s, e))
  {
    hide Pack, NextGen, Legal, Stepped, Take, Move, Finish;
    SameStepped(s, e);
    FinishStepped(s, e, s, e.q);
    match NextOutcome(s.lives[s.jobs[e.q].worker].gen, e.first, e.waited)
    case Issued(id) =>
      var s1 := Take(s, e.q, if e.DrawId? then ForLink else ForClick, e.first, e.waited);
      assert s1.jobs == s.jobs && s1.clicks == s.clicks by {
        TakeFields(s, e.q, if e.DrawId? then ForLink else ForClick, e.first, e.waited);
      }
      var t := s.jobs[e.q].task;
      if e.DrawId? {
        TakeStepped(s, e, e.q, ForLink, e.first, e.waited, s1);
        MoveStepped(s, e, s1, e.q, Numbered(t.userID, t.url, t.expiresAt, id));
      } else {
        var s2 := s1.(clicks := s.clicks + [ClickEvent(id, t.res.linkID, t.code, t.res.originalURL)]);
        TakeStepped(s, e, e.q, ForClick, e.first, e.waited, s2);
        FinishStepped(s, e, s2, e.q);
      }
    case ClockBackwards(_) =>
  }

  lemma TakeFields(s: State, q: nat, use: Use, first: int, waited: int)
    requires q in s.jobs && CanDraw(s, s.jobs[q].worker, first, waited)
    requires NextOutcome(s.lives[s.jobs[q].worker].gen, first, waited).Issued?
    ensures var s1 := Take(s, q, use, first, waited);
            s1.jobs == s.jobs && s1.clicks == s.clicks
  {
    hide Pack, NextGen, NextOutcome, Legal;
  }

  lemma OtherStepped(s: State, e: Event)
    requires Enabled(s, e)
    requires e.Tick? || e.Evict? || e.Boot? || e.Reboot? || e.SubmitCreate? || e.SubmitRedirect? || e.Abandon?
    ensures Stepped(s, e, Effect(s, e))
  {
  }

  lemma EffectStepped(s: State, e: Event)
    requires Enabled(s, e)
    ensures Stepped(s, e, Effect(s, e))
  {
    hide Stepped, Effect, Enabled;
    if e.Probe? || e.FetchRow? || e.CheckExpiry? {
      ReadStepped(s, e);
    } else if e.BuildLink? || e.ComputeTtl? {
      BuildStepped(s, e);
    } else if e.InsertRow? {
      InsertStepped(s, e);
    } else if e.WarmCache? {
      WarmStepped(s, e);
    } else if e.DrawId? || e.PublishClick? {
      DrawStepped(s, e);
    } else {
      OtherStepped(s, e);
    }
  }

  // ---------- the submission behind a request ----------

  /** Event i, before step k, submitted request q. */
  predicate SubmittedAt(t: Trace, i: nat, k: nat, q: nat, e: Event) {
    i < k && i < |t.events| && i < |t.states| && t.events[i] == e && t.states[i].nextJob == q
  }

  /** Request q was submitted to instance w for this user, URL and expiry time. */
  ghost predicate Asked(t: Trace, k: nat, q: nat, w: int, userID: string, url: string, expiresAt: Option<int>) {
    exists i: nat :: SubmittedAt(t, i, k, q, SubmitCreate(w, userID, url, expiresAt))
  }

  ghost predicate BuiltAt(t: Trace, b: nat, k: nat, q: nat, w: int, l: Link) {
    && b < k && b < |t.events| && b < |t.states| && t.events[b] == BuildLink(q) && t.states[b].now == l.createdAt
    && Asked(t, b, q, w, l.userID, l.originalURL, l.expiresAt)
  }

  /** The link carries what request q was submitted with, and the time it was built. */
  ghost predicate MadeFor(t: Trace, k: nat, q: nat, w: int, l: Link) {
    exists b: nat :: BuiltAt(t, b, k, q, w, l)
  }

  predicate TtlAt(t: Trace, j: nat, k: nat, q: nat, at: int) {
    j < k && j < |t.events| && j < |t.states| && t.events[j] == ComputeTtl(q) && t.states[j].now == at
  }

  ghost predicate TtlTaken(t: Trace, k: nat, q: nat, at: int) {
    exists j: nat :: TtlAt(t, j, k, q, at)
  }

  predicate RedirectAsked(t: Trace, k: nat, q: nat, w: int, code: string, began: nat) {
    SubmittedAt(t, began, k, q, SubmitRedirect(w, code))
  }

  ghost predicate JobTold(t: Trace, k: nat, q: nat, job: Job) {
    match job.task
    case Requested(user, url, exp) => Asked(t, k, q, job.worker, user, url, exp)
    case Numbered(user, url, exp, _) => Asked(t, k, q, job.worker, user, url, exp)
    case Built(l) => MadeFor(t, k, q, job.worker, l)
    case Saved(l) => MadeFor(t, k, q, job.worker, l)
    case SavedTimed(l, _, at) => MadeFor(t, k, q, job.worker, l) && TtlTaken(t, k, q, at)
    case Probing(code, began) => RedirectAsked(t, k, q, job.worker, code, began)
    case Missed(code, began) => RedirectAsked(t, k, q, job.worker, code, began)
    case Fetched(code, began, _) => RedirectAsked(t, k, q, job.worker, code, began)
    case Checked(code, began, _, _) => RedirectAsked(t, k, q, job.worker, code, began)
    case CheckedTimed(code, began, _, _, _, at) =>
      RedirectAsked(t, k, q, job.worker, code, began) && TtlTaken(t, k, q, at)
    case Redirected(_, _) => true
  }

  /** The draw behind a link: made for request q. */
  ghost predicate NumberedFor(s: State, q: nat, l: Link) {
    exists d :: d in s.drawn && d.id == l.id && d.job == q && d.use == ForLink
  }

  ghost predicate RowTold(t: Trace, k: nat, s: State, l: Link) {
    exists q: nat, w: int :: MadeFor(t, k, q, w, l) && NumberedFor(s, q, l)
  }

  ghost predicate ReplyTold(t: Trace, k: nat, q: nat, r: Reply) {
    && r.at < k && r.at < |t.events|
    && (exists w :: RedirectAsked(t, k, q, w, r.code, r.began))
    && (match r.answer
        case Ok(_) => t.events[r.at] == Probe(q, false) || (t.events[r.at].WarmCache? && t.events[r.at].q == q)
        case Err(e) =>
          && r.decided == r.at
          && t.events[r.at] == match e
             case Database => FetchRow(q, true)
             case NotFound => FetchRow(q, false)
             case _ => CheckExpiry(q))
  }

  /** The write at step i, of a TTL computed at step j, took this long. */
  predicate WriteDelay(t: Trace, j: nat, i: nat, k: nat, delay: int) {
    && j < i < k && i < |t.events| && i < |t.states|
    && t.events[i].WarmCache? && t.events[j] == ComputeTtl(t.events[i].q)
    && delay == t.states[i].now - t.states[j].now
  }

  ghost predicate LagTold(t: Trace, k: nat, lag: nat) {
    lag == 0 || exists j: nat, i: nat :: WriteDelay(t, j, i, k, lag)
  }

  ghost predicate Told(t: Trace, k: nat)
    requires k < |t.states|
  {
    var s := t.states[k];
    && s.steps == k
    && (forall q :: q in s.jobs ==> JobTold(t, k, q, s.jobs[q]))
    && (forall c :: c in s.rows ==> RowTold(t, k, s, s.rows[c]))
    && (forall q :: q in s.replies ==> ReplyTold(t, k, q, s.replies[q]))
    && LagTold(t, k, s.lag)
  }

  lemma AskedLater(t: Trace, k: nat, q: nat, w: int, userID: string, url: string, expiresAt: Option<int>)
    requires Asked(t, k, q, w, userID, url, expiresAt)
    ensures Asked(t, k + 1, q, w, userID, url, expiresAt)
  {
    var i: nat :| SubmittedAt(t, i, k, q, SubmitCreate(w, userID, url, expiresAt));
    assert SubmittedAt(t, i, k + 1, q, SubmitCreate(w, userID, url, expiresAt));
  }

  lemma MadeLater(t: Trace, k: nat, q: nat, w: int, l: Link)
    requires MadeFor(t, k, q, w, l)
    ensures MadeFor(t, k + 1, q, w, l)
  {
    var b: nat :| BuiltAt(t, b, k, q, w, l);
    assert BuiltAt(t, b, k + 1, q, w, l);
  }

  lemma TtlLater(t: Trace, k: nat, q: nat, at: int)
    requires TtlTaken(t, k, q, at)
    ensures TtlTaken(t, k + 1, q, at)
  {
    var j: nat :| TtlAt(t, j, k, q, at);
    assert TtlAt(t, j, k + 1, q, at);
  }

  lemma JobLater(t: Trace, k: nat, q: nat, job: Job)
    requires JobTold(t, k, q, job)
    ensures JobTold(t, k + 1, q, job)
  {
    hide Asked, MadeFor, TtlTaken;
    match job.task
    case Requested(user, url, exp) => AskedLater(t, k, q, job.worker, user, url, exp);
    case Numbered(user, url, exp, _) => AskedLater(t, k, q, job.worker, user, url, exp);
    case Built(l) => MadeLater(t, k, q, job.worker, l);
    case Saved(l) => MadeLater(t, k, q, job.worker, l);
    case SavedTimed(l, _, at) =>
      MadeLater(t, k, q, job.worker, l);
      TtlLater(t, k, q, at);
    case CheckedTimed(_, _, _, _, _, at) => TtlLater(t, k, q, at);
    case _ =>
  }

  /** The task an event leaves a request with is told by the history one step longer. */
  lemma JobStep(t: Trace, k: nat, q: nat, job: Job)
    requires k < |t.events| && k < |t.states| && t.states[k].steps == k
    requires q in t.states[k].jobs ==> JobTold(t, k, q, t.states[k].jobs[q])
    requires Follows(t.states[k], t.events[k], q, job.task)
    requires if Submits(t.events[k]) then job.worker == t.events[k].w && (job.task.Requested? || job.task.Probing?)
             else q in t.states[k].jobs && job.worker == t.states[k].jobs[q].worker
    ensures JobTold(t, k + 1, q, job)
  {
    hide Asked, MadeFor, TtlTaken;
    var s, e := t.states[k], t.events[k];
    if q in s.jobs {
      JobLater(t, k, q, s.jobs[q]);
    }
    match job.task
    case Requested(user, url, exp) => AskedNow(t, k, q, job.worker, user, url, exp);
    case Built(l) => BuiltNow(t, k, q, job.worker, l);
    case SavedTimed(_, _, at) => TtlNow(t, k, q, at);
    case CheckedTimed(_, _, _, _, _, at) => TtlNow(t, k, q, at);
    case _ =>
  }

  lemma AskedNow(t: Trace, k: nat, q: nat, w: int, userID: string, url: string, expiresAt: Option<int>)
    requires SubmittedAt(t, k, k + 1, q, SubmitCreate(w, userID, url, expiresAt))
    ensures Asked(t, k + 1, q, w, userID, url, expiresAt)
  {
  }

  lemma BuiltNow(t: Trace, k: nat, q: nat, w: int, l: Link)
    requires k < |t.events| && k < |t.states| && t.events[k] == BuildLink(q) && l.createdAt == t.states[k].now
    requires Asked(t, k, q, w, l.userID, l.originalURL, l.expiresAt)
    ensures MadeFor(t, k + 1, q, w, l)
  {
    hide Asked;
    assert BuiltAt(t, k, k + 1, q, w, l);
  }

  lemma TtlNow(t: Trace, k: nat, q: nat, at: int)
    requires k < |t.events| && k < |t.states| && t.events[k] == ComputeTtl(q) && at == t.states[k].now
    ensures TtlTaken(t, k + 1, q, at)
  {
    assert TtlAt(t, k, k + 1, q, at);
  }

  lemma RowLater(t: Trace, k: nat, s: State, s': State, l: Link)
    requires RowTold(t, k, s, l) && s.drawn <= s'.drawn
    ensures RowTold(t, k + 1, s', l)
  {
    hide MadeFor;
    var q: nat, w: int :| MadeFor(t, k, q, w, l) && NumberedFor(s, q, l);
    MadeLater(t, k, q, w, l);
    NumberedLater(s, s', q, l);
  }

  lemma NumberedLater(s: State, s': State, q: nat, l: Link)
    requires NumberedFor(s, q, l) && s.drawn <= s'.drawn
    ensures NumberedFor(s', q, l)
  {
    var d :| d in s.drawn && d.id == l.id && d.job == q && d.use == ForLink;
    assert d in s'.drawn;
  }

  /** A row comes from the request that had built it. */
  lemma RowStep(t: Trace, k: nat, s': State, l: Link)
    requires k < |t.events| && k < |t.states| && t.events[k].InsertRow? && Inv(t.states[k])
    requires t.states[k].drawn <= s'.drawn
    requires var q := t.events[k].q;
             q in t.states[k].jobs && t.states[k].jobs[q].task == Built(l) && JobTold(t, k, q, t.states[k].jobs[q])
    ensures RowTold(t, k + 1, s', l)
  {
    hide MadeFor, DrawsInv, RowsInv, CacheInv, ClicksInv, Base62.Code;
    var s, q := t.states[k], t.events[k].q;
    assert TaskOk(s, q, s.jobs[q].task);
    assert NumberedFor(s, q, l);
    RowLater(t, k, s, s', l);
  }

  lemma ReplyLater(t: Trace, k: nat, q: nat, r: Reply)
    requires ReplyTold(t, k, q, r)
    ensures ReplyTold(t, k + 1, q, r)
  {
    var w :| RedirectAsked(t, k, q, w, r.code, r.began);
    assert RedirectAsked(t, k + 1, q, w, r.code, r.began);
  }

  lemma ReplyStep(t: Trace, k: nat, q: nat, r: Reply)
    requires k < |t.events| && k < |t.states| && t.states[k].steps == k
    requires q in t.states[k].jobs && JobTold(t, k, q, t.states[k].jobs[q])
    requires Replied(t.states[k], t.events[k], q, t.states[k].jobs[q].task, r)
    ensures ReplyTold(t, k + 1, q, r)
  {
    hide Asked, MadeFor, TtlTaken, CacheGet, IsExpired;
    assert RedirectAsked(t, k + 1, q, t.states[k].jobs[q].worker, r.code, r.began);
  }

  lemma LagLater(t: Trace, k: nat, lag: nat)
    requires LagTold(t, k, lag)
    ensures LagTold(t, k + 1, lag)
  {
    if lag > 0 {
      var j: nat, i: nat :| WriteDelay(t, j, i, k, lag);
      assert WriteDelay(t, j, i, k + 1, lag);
    }
  }

  lemma LagStep(t: Trace, k: nat, lag: nat)
    requires k < |t.events| && k < |t.states| && t.events[k].WarmCache?
    requires var q := t.events[k].q;
             && q in t.states[k].jobs && JobTold(t, k, q, t.states[k].jobs[q])
             && (t.states[k].jobs[q].task.SavedTimed? || t.states[k].jobs[q].task.CheckedTimed?)
             && lag == t.states[k].now - TimedAt(t.states[k].jobs[q].task)
    ensures LagTold(t, k + 1, lag)
  {
    hide Asked, MadeFor;
    var q := t.events[k].q;
    var j: nat :| TtlAt(t, j, k, q, TimedAt(t.states[k].jobs[q].task));
    assert WriteDelay(t, j, k, k + 1, lag);
  }

  lemma StartTold(t: Trace)
    ensures LagTold(t, 0, 0)
  {
  }

  lemma {:induction false} AlwaysTold(cfg: Config, t: Trace, k: nat)
    requires cfg.cacheTTL <= MAX_DURATION && Behaviour(cfg, t) && k < |t.states|
    ensures Told(t, k)
  {
    hide Effect, Enabled, Inv, JobTold, RowTold, ReplyTold, LagTold, Follows, Replied, TimedAt;
    if k == 0 {
      StartTold(t);
    } else {
      var s, s', e := t.states[k - 1], t.states[k], t.events[k - 1];
      AlwaysTold(cfg, t, k - 1);
      Reachable(cfg, t, k - 1);
      assert StepAt(t, k - 1);
      EffectStepped(s, e);
      forall q | q in s'.jobs ensures JobTold(t, k, q, s'.jobs[q]) {
        if q in s.jobs && s'.jobs[q] == s.jobs[q] {
          JobLater(t, k - 1, q, s.jobs[q]);
        } else {
          JobStep(t, k - 1, q, s'.jobs[q]);
        }
      }
      forall c | c in s'.rows ensures RowTold(t, k, s', s'.rows[c]) {
        if c in s.rows && s'.rows[c] == s.rows[c] {
          RowLater(t, k - 1, s, s', s.rows[c]);
        } else {
          RowStep(t, k - 1, s', s'.rows[c]);
        }
      }
      forall q | q in s'.replies ensures ReplyTold(t, k, q, s'.replies[q]) {
        if q in s.replies && s'.replies[q] == s.replies[q] {
          ReplyLater(t, k - 1, q, s.replies[q]);
        } else {
          ReplyStep(t, k - 1, q, s'.replies[q]);
        }
      }
      if s'.lag == s.lag {
        LagLater(t, k - 1, s.lag);
      } else {
        LagStep(t, k - 1, s'.lag);
      }
    }
  }

  // ---------- which readings draw ----------

  /** Worker w has drawn an ID at this millisecond, or it lies just before the window. */
  ghost predicate Spent(s: State, w: int, ms: int) {
    ms == EPOCH - 1 || exists d :: d in s.drawn && d.worker == w && d.ms == ms
  }

  ghost predicate LivesTold(s: State) {
    forall w :: w in s.lives ==>
      Spent(s, w, s.lives[w].floor) && (s.lives[w].gen.lastMs != 0 ==> Spent(s, w, s.lives[w].gen.lastMs))
  }

  lemma SpentLater(s: State, s': State, w: int, ms: int)
    requires s.drawn <= s'.drawn
    ensures Spent(s, w, ms) ==> Spent(s', w, ms)
  {
    if d :| d in s.drawn && d.worker == w && d.ms == ms {
      assert d in s'.drawn;
    }
  }

  lemma TakeLives(s: State, q: nat, use: Use, first: int, waited: int)
    requires LivesTold(s) && q in s.jobs && CanDraw(s, s.jobs[q].worker, first, waited)
    requires NextOutcome(s.lives[s.jobs[q].worker].gen, first, waited).Issued?
    ensures LivesTold(Take(s, q, use, first, waited))
  {
    hide Pack, NextGen, NextOutcome, Legal;
    var s' := Take(s, q, use, first, waited);
    var w := s.jobs[q].worker;
    var d := s'.drawn[|s.drawn|];
    assert d in s'.drawn && d.worker == w && d.ms == s'.lives[w].gen.lastMs;
    forall v | v in s'.lives
      ensures Spent(s', v, s'.lives[v].floor)
              && (s'.lives[v].gen.lastMs != 0 ==> Spent(s', v, s'.lives[v].gen.lastMs))
    {
      SpentLater(s, s', v, s.lives[v].floor);
      SpentLater(s, s', v, s.lives[v].gen.lastMs);
    }
  }

  lemma LivesKept(s: State, e: Event)
    requires Enabled(s, e) && LivesTold(s)
    ensures LivesTold(Effect(s, e))
  {
    hide NextGen, NextOutcome, Legal, Pack, LivesTold, Take, DrawStep, PublishStep, Follows, Replied;
    match e
    case DrawId(q, first, waited) =>
      if NextOutcome(s.lives[s.jobs[q].worker].gen, first, waited).Issued? {
        TakeLives(s, q, ForLink, first, waited);
      }
      DrawLives(s, e);
    case PublishClick(q, first, waited) =>
      if NextOutcome(s.lives[s.jobs[q].worker].gen, first, waited).Issued? {
        TakeLives(s, q, ForClick, first, waited);
      }
      DrawLives(s, e);
    case Boot(w) => BootLives(s, e);
    case Reboot(w) => BootLives(s, e);
    case _ =>
      EffectStepped(s, e);
      SameLives(s, Effect(s, e));
  }

  lemma SameLives(s: State, s': State)
    requires LivesTold(s) && s'.lives == s.lives && s'.drawn == s.drawn
    ensures LivesTold(s')
  {
    forall w | w in s'.lives
      ensures Spent(s', w, s'.lives[w].floor)
              && (s'.lives[w].gen.lastMs != 0 ==> Spent(s', w, s'.lives[w].gen.lastMs))
    {
      assert Spent(s, w, s.lives[w].floor);
    }
  }

  lemma BootLives(s: State, e: Event)
    requires Enabled(s, e) && (e.Boot? || e.Reboot?) && LivesTold(s)
    ensures LivesTold(Effect(s, e))
  {
    var s' := Effect(s, e);
    forall w | w in s'.lives
      ensures Spent(s', w, s'.lives[w].floor)
              && (s'.lives[w].gen.lastMs != 0 ==> Spent(s', w, s'.lives[w].gen.lastMs))
    {
      assert w in s.lives ==> Spent(s, w, LastMs(s.lives[w]));
    }
  }

  lemma DrawLives(s: State, e: Event)
    requires Enabled(s, e) && (e.DrawId? || e.PublishClick?) && LivesTold(s)
    requires NextOutcome(s.lives[s.jobs[e.q].worker].gen, e.first, e.waited).Issued? ==>
               LivesTold(Take(s, e.q, if e.DrawId? then ForLink else ForClick, e.first, e.waited))
    ensures LivesTold(Effect(s, e))
  {
    hide NextGen, NextOutcome, Legal, Pack, LivesTold, Take;
    var s' := Effect(s, e);
    if NextOutcome(s.lives[s.jobs[e.q].worker].gen, e.first, e.waited).Issued? {
      SameLives(Take(s, e.q, if e.DrawId? then ForLink else ForClick, e.first, e.waited), s');
    } else {
      SameLives(s, s');
    }
  }

  lemma {:induction false} AlwaysLives(cfg: Config, t: Trace, k: nat)
    requires Behaviour(cfg, t) && k < |t.states|
    ensures LivesTold(t.states[k])
  {
    hide Effect, Enabled;
    if k > 0 {
      AlwaysLives(cfg, t, k - 1);
      assert StepAt(t, k - 1);
      LivesKept(t.states[k - 1], t.events[k - 1]);
      SameLives(Effect(t.states[k - 1], t.events[k - 1]), t.states[k]);
    }
  }

  /** The draw condition in plain terms is met by any reading in the window that is
      later than every ID the worker has drawn, in this life or an earlier one. */
  lemma LaterReadingDraws(cfg: Config, t: Trace, k: nat, w: int, ms: int)
    requires Behaviour(cfg, t) && k < |t.states| && w in t.states[k].lives && InWindow(ms)
    requires forall d :: d in t.states[k].drawn && d.worker == w ==> d.ms < ms
    ensures CanDraw(t.states[k], w, ms, ms) && NextOutcome(t.states[k].lives[w].gen, ms, ms).Issued?
  {
    hide Pack;
    AlwaysLives(cfg, t, k);
    var life := t.states[k].lives[w];
    assert Spent(t.states[k], w, life.floor);
  }

  // ---------- the theorems ----------

  /** Every row was submitted by one request, and carries that request's user, URL and
      expiry time, the time at which it was built, and an ID drawn for that request. */
  lemma RowsAreSubmissions(cfg: Config, t: Trace, k: nat, c: string) returns (i: nat, b: nat, q: nat, w: int)
    requires cfg.cacheTTL <= MAX_DURATION && Behaviour(cfg, t) && k < |t.states| && c in t.states[k].rows
    ensures i < b < k
    ensures var l := t.states[k].rows[c];
            && t.events[i] == SubmitCreate(w, l.userID, l.originalURL, l.expiresAt) && t.states[i].nextJob == q
            && t.events[b] == BuildLink(q) && l.createdAt == t.states[b].now
            && exists d :: d in t.states[k].drawn && d.id == l.id && d.job == q && d.use == ForLink
  {
    hide Behaviour;
    AlwaysTold(cfg, t, k);
    var s, l := t.states[k], t.states[k].rows[c];
    assert RowTold(t, k, s, l);
    q, w :| MadeFor(t, k, q, w, l) && NumberedFor(s, q, l);
    b :| BuiltAt(t, b, k, q, w, l);
    i :| SubmittedAt(t, i, b, q, SubmitCreate(w, l.userID, l.originalURL, l.expiresAt));
  }

  /** Every answer belongs to the redirect that asked for its code: `began` is the step
      of its submission and `at` the step that gave the answer. A database error was
      a failed query, and not found or expired was never said without looking. */
  lemma RepliesAreRequests(cfg: Config, t: Trace, k: nat, q: nat)
    requires cfg.cacheTTL <= MAX_DURATION && Behaviour(cfg, t) && k < |t.states| && q in t.states[k].replies
    ensures var r := t.states[k].replies[q];
            && r.began < k && r.at < k
            && t.events[r.began].SubmitRedirect? && t.events[r.began].code == r.code && t.states[r.began].nextJob == q
            && (t.events[r.at] == Probe(q, false) || (t.events[r.at].WarmCache? && t.events[r.at].q == q)
                <==> r.answer.Ok?)
            && (t.events[r.at] == FetchRow(q, true) <==> r.answer == Err(Database))
            && (t.events[r.at] == FetchRow(q, false) <==> r.answer == Err(NotFound))
  {
    hide Behaviour;
    AlwaysTold(cfg, t, k);
    assert ReplyTold(t, k, q, t.states[k].replies[q]);
  }

  /** The lag is the longest delay there was, not more: it is zero or the time between
      two steps of one request, its TTL computation and its cache write. */
  lemma LagIsADelay(cfg: Config, t: Trace, k: nat) returns (j: nat, i: nat)
    requires cfg.cacheTTL <= MAX_DURATION && Behaviour(cfg, t) && k < |t.states| && t.states[k].lag > 0
    ensures j < i < k
    ensures t.events[i].WarmCache? && t.events[j] == ComputeTtl(t.events[i].q)
    ensures t.states[k].lag == t.states[i].now - t.states[j].now
  {
    hide Behaviour;
    AlwaysTold(cfg, t, k);
    j, i :| WriteDelay(t, j, i, k, t.states[k].lag);
  }
}
