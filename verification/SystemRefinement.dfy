/** The service's own methods are behaviours of the system: from any point of any run,
    the steps of one request can be taken without interruption, and together they do
    what Create and Redirect do. */
module SystemRefinement {
  import opened Wrappers
  import opened Links
  import opened Stores
  import opened Snowflake
  import opened LinkService
  import opened Redirects
  import opened System
  import Base62

  /** The behaviour so far ends in state s. */
  predicate Ends(cfg: Config, t: Trace, s: State) {
    Behaviour(cfg, t) && t.states[|t.states| - 1] == s
  }

  /** The run t' goes on from where t stopped. */
  predicate Extends(t: Trace, t': Trace) {
    t.events <= t'.events && t.states <= t'.states
  }

  lemma Step(cfg: Config, t: Trace, s: State, e: Event) returns (t': Trace, s': State)
    requires Ends(cfg, t, s) && Enabled(s, e)
    ensures Ends(cfg, t', s') && s' == Apply(s, e) && Extends(t, t')
  {
    hide Apply, Enabled;
    s' := Apply(s, e);
    t' := Trace(t.events + [e], t.states + [s']);
    forall i: nat | i < |t'.events| ensures StepAt(t', i) {
      assert i < |t.events| ==> StepAt(t, i);
    }
  }

  lemma ExtendsTwice(t: Trace, u: Trace, v: Trace)
    requires Extends(t, u) && Extends(u, v)
    ensures Extends(t, v)
  {
  }

  // ---------- a redirect ----------

  /** Request q alone has moved, and nothing has been drawn, stored or published. */
  predicate Quiet(s: State, s': State, q: nat) {
    && s' == s.(jobs := s'.jobs, replies := s'.replies, now := s'.now, steps := s'.steps,
                cache := s'.cache, lag := s'.lag)
    && s'.jobs - {q} == s.jobs - {q}
  }

  /** Request q has answered a: it is gone, or goes on as a redirect of its instance. */
  predicate Gave(s: State, s': State, q: nat, code: string, a: Result<Resolved, Error>) {
    && q in s.jobs && q in s'.replies && s'.replies[q].code == code && s'.replies[q].answer == a
    && match a
       case Ok(res) => q in s'.jobs && s'.jobs[q] == Job(s.jobs[q].worker, Redirected(code, res))
       case Err(_) => q !in s'.jobs
  }

  /** A step of a run u that extends t. */
  lemma Also(cfg: Config, t: Trace, u: Trace, s: State, e: Event) returns (t': Trace, s': State)
    requires Ends(cfg, u, s) && Enabled(s, e) && Extends(t, u)
    ensures Ends(cfg, t', s') && s' == Apply(s, e) && Extends(t, t')
  {
    hide Ends, Extends, Apply, Enabled;
    t', s' := Step(cfg, u, s, e);
    ExtendsTwice(t, u, t');
  }

  /** From the expiry check on: TTL, cache write. */
  lemma FromCheckRuns(cfg: Config, t: Trace, s: State, q: nat, io: ResolveIO) returns (t': Trace, s': State)
    requires Ends(cfg, t, s) && q in s.jobs && s.jobs[q].task.Checked?
    requires s.now <= io.ttlAt <= io.setAt
    ensures Ends(cfg, t', s') && Extends(t, t') && Quiet(s, s', q)
    ensures var task := s.jobs[q].task;
            && Gave(s, s', q, task.code, Ok(ResolvedOf(task.row)))
            && s'.cache == CacheSet(s.cache, task.code, ResolvedOf(task.row),
                                    CacheTtlFor(task.row, s.cacheTTL, io.ttlAt), io.setAt, io.warm)
  {
    hide Ends, Extends, CacheSet, CacheTtlFor, IsExpired;
    t', s' := Step(cfg, t, s, Tick(io.ttlAt));
    t', s' := Also(cfg, t, t', s', ComputeTtl(q));
    t', s' := Also(cfg, t, t', s', Tick(io.setAt));
    t', s' := Also(cfg, t, t', s', WarmCache(q, io.warm));
  }

  /** From the fetched row on. */
  lemma FromRowRuns(cfg: Config, t: Trace, s: State, q: nat, io: ResolveIO) returns (t': Trace, s': State)
    requires Ends(cfg, t, s) && q in s.jobs && s.jobs[q].task.Fetched?
    requires s.now <= io.checkAt <= io.ttlAt <= io.setAt
    ensures Ends(cfg, t', s') && Extends(t, t') && Quiet(s, s', q)
    ensures var task := s.jobs[q].task;
            if IsExpired(task.row, io.checkAt) then
              Gave(s, s', q, task.code, Err(Expired)) && s'.cache == s.cache
            else
              && Gave(s, s', q, task.code, Ok(ResolvedOf(task.row)))
              && s'.cache == CacheSet(s.cache, task.code, ResolvedOf(task.row),
                                      CacheTtlFor(task.row, s.cacheTTL, io.ttlAt), io.setAt, io.warm)
  {
    hide Ends, Extends, CacheSet, CacheTtlFor, IsExpired;
    t', s' := Step(cfg, t, s, Tick(io.checkAt));
    t', s' := Also(cfg, t, t', s', CheckExpiry(q));
    if q in s'.jobs {
      var u := t';
      t', s' := FromCheckRuns(cfg, u, s', q, io);
      ExtendsTwice(t, u, t');
    }
  }

  /** From a cache miss on. */
  lemma FromTableRuns(cfg: Config, t: Trace, s: State, q: nat, io: ResolveIO) returns (t': Trace, s': State)
    requires Ends(cfg, t, s) && q in s.jobs && s.jobs[q].task.Missed?
    requires s.now <= io.checkAt <= io.ttlAt <= io.setAt
    ensures Ends(cfg, t', s') && Extends(t, t') && Quiet(s, s', q)
    ensures var code := s.jobs[q].task.code;
            var a := if io.lookupFails then Err(Database) else Uncached(s.rows, code, io.checkAt);
            && Gave(s, s', q, code, a)
            && s'.cache == if a.Ok? then CacheSet(s.cache, code, ResolvedOf(s.rows[code]),
                                                  CacheTtlFor(s.rows[code], s.cacheTTL, io.ttlAt), io.setAt, io.warm)
                           else s.cache
  {
    hide Ends, Extends, CacheSet, CacheTtlFor, IsExpired;
    t', s' := Step(cfg, t, s, FetchRow(q, io.lookupFails));
    if q in s'.jobs {
      var u := t';
      t', s' := FromRowRuns(cfg, u, s', q, io);
      ExtendsTwice(t, u, t');
    }
  }

  /** An uninterrupted Resolve answers and fills the cache as the method does. */
  lemma ResolveRuns(cfg: Config, t: Trace, s: State, q: nat, io: ResolveIO) returns (t': Trace, s': State)
    requires Ends(cfg, t, s) && q in s.jobs && s.jobs[q].task.Probing?
    requires s.now <= io.getAt <= io.checkAt <= io.ttlAt <= io.setAt
    ensures Ends(cfg, t', s') && Extends(t, t') && Quiet(s, s', q)
    ensures var code := s.jobs[q].task.code;
            && Gave(s, s', q, code, ResolveAnswer(s.rows, s.cache, code, io))
            && s'.cache == ResolveCache(s.rows, s.cache, code, s.cacheTTL, io)
  {
    hide Ends, Extends, CacheSet, CacheTtlFor, CacheGet, IsExpired;
    t', s' := Step(cfg, t, s, Tick(io.getAt));
    t', s' := Also(cfg, t, t', s', Probe(q, io.getFails));
    if !s'.jobs[q].task.Redirected? {
      var u := t';
      t', s' := FromTableRuns(cfg, u, s', q, io);
      ExtendsTwice(t, u, t');
    }
  }

  /** Publishing draws one ID and appends one event, or loses it to the clock. */
  lemma PublishRuns(cfg: Config, t: Trace, s: State, q: nat, first: int, waited: int) returns (t': Trace, s': State)
    requires Ends(cfg, t, s) && q in s.jobs && s.jobs[q].task.Redirected?
    requires CanDraw(s, s.jobs[q].worker, first, waited)
    ensures Ends(cfg, t', s') && Extends(t, t') && s'.jobs == s.jobs - {q}
    ensures s' == s.(jobs := s'.jobs, lives := s'.lives, drawn := s'.drawn, clicks := s'.clicks, steps := s'.steps)
    ensures var task, w := s.jobs[q].task, s.jobs[q].worker;
            && s'.lives == s.lives[w := s.lives[w].(gen := NextGen(s.lives[w].gen, first, waited))]
            && match NextOutcome(s.lives[w].gen, first, waited)
               case Issued(id) =>
                 && s'.clicks == s.clicks + [ClickEvent(id, task.res.linkID, task.code, task.res.originalURL)]
                 && |s'.drawn| == |s.drawn| + 1 && s.drawn <= s'.drawn
                 && s'.drawn[|s.drawn|].id == id && s'.drawn[|s.drawn|].use == ForClick
                 && s'.drawn[|s.drawn|].job == q && s'.drawn[|s.drawn|].worker == w
               case ClockBackwards(_) => s'.clicks == s.clicks && s'.drawn == s.drawn
  {
    hide Ends, Extends, Pack, Legal;
    t', s' := Step(cfg, t, s, PublishClick(q, first, waited));
  }

  /** A whole redirect that no other request interrupts is the handler's Redirect: it
      answers and fills the cache as Resolve does, and after a good answer, and only
      then, it publishes exactly one event, with the answer's link and a drawn ID. */
  lemma RedirectRuns(cfg: Config, t: Trace, s: State, q: nat, io: ResolveIO, first: int, waited: int)
    returns (t': Trace, s': State)
    requires Ends(cfg, t, s) && q in s.jobs && s.jobs[q].task.Probing?
    requires s.now <= io.getAt <= io.checkAt <= io.ttlAt <= io.setAt
    requires ResolveAnswer(s.rows, s.cache, s.jobs[q].task.code, io).Ok? ==> CanDraw(s, s.jobs[q].worker, first, waited)
    ensures Ends(cfg, t', s') && Extends(t, t') && s'.jobs == s.jobs - {q} && s'.rows == s.rows
    ensures var code, w := s.jobs[q].task.code, s.jobs[q].worker;
            var a := ResolveAnswer(s.rows, s.cache, code, io);
            && q in s'.replies && s'.replies[q].code == code && s'.replies[q].answer == a
            && s'.cache == ResolveCache(s.rows, s.cache, code, s.cacheTTL, io)
            && (a.Err? ==> s'.lives == s.lives && s'.drawn == s.drawn && s'.clicks == s.clicks)
            && (a.Ok? ==>
                  && s'.lives == s.lives[w := s.lives[w].(gen := NextGen(s.lives[w].gen, first, waited))]
                  && match NextOutcome(s.lives[w].gen, first, waited)
                     case Issued(id) =>
                       && s'.clicks == s.clicks + [ClickEvent(id, a.value.linkID, code, a.value.originalURL)]
                       && |s'.drawn| == |s.drawn| + 1 && s.drawn <= s'.drawn
                       && s'.drawn[|s.drawn|].id == id && s'.drawn[|s.drawn|].use == ForClick
                     case ClockBackwards(_) => s'.clicks == s.clicks && s'.drawn == s.drawn)
  {
    hide Ends, Extends, ResolveAnswer, ResolveCache, NextGen, NextOutcome, Legal;
    t', s' := ResolveRuns(cfg, t, s, q, io);
    if q in s'.jobs {
      var u := t';
      assert s'.jobs - {q} == s.jobs - {q};
      t', s' := PublishRuns(cfg, u, s', q, first, waited);
      ExtendsTwice(t, u, t');
    } else {
      assert s'.jobs == s'.jobs - {q};
    }
  }

  // ---------- a creation ----------

  /** From the stored row on: TTL, cache write. */
  lemma FromSavedRuns(cfg: Config, t: Trace, s: State, q: nat, io: CreateIO) returns (t': Trace, s': State)
    requires Ends(cfg, t, s) && q in s.jobs && s.jobs[q].task.Saved?
    requires s.now <= io.ttlAt <= io.setAt
    ensures Ends(cfg, t', s') && Extends(t, t') && s'.jobs == s.jobs - {q}
    ensures s' == s.(jobs := s'.jobs, now := s'.now, steps := s'.steps, cache := s'.cache, lag := s'.lag)
    ensures var l := s.jobs[q].task.link;
            s'.cache == CacheSet(s.cache, l.shortCode, Resolved(l.id, l.originalURL),
                                 CacheTtlFor(l, s.cacheTTL, io.ttlAt), io.setAt, io.warm)
  {
    hide Ends, Extends, CacheSet, CacheTtlFor;
    t', s' := Step(cfg, t, s, Tick(io.ttlAt));
    t', s' := Also(cfg, t, t', s', ComputeTtl(q));
    t', s' := Also(cfg, t, t', s', Tick(io.setAt));
    t', s' := Also(cfg, t, t', s', WarmCache(q, io.warm));
    assert s'.jobs == s.jobs - {q};
  }

  /** From the drawn ID on: build, insert. */
  lemma FromNumberRuns(cfg: Config, t: Trace, s: State, q: nat, io: CreateIO) returns (t': Trace, s': State)
    requires Ends(cfg, t, s) && q in s.jobs && s.jobs[q].task.Numbered?
    requires s.now <= io.createdAt <= io.ttlAt <= io.setAt
    ensures Ends(cfg, t', s') && Extends(t, t') && s'.jobs == s.jobs - {q}
    ensures s' == s.(jobs := s'.jobs, rows := s'.rows, now := s'.now, steps := s'.steps,
                     cache := s'.cache, lag := s'.lag)
    ensures var task := s.jobs[q].task;
            var l := Link(task.id, Base62.Code(task.id), task.url, task.userID, io.createdAt, task.expiresAt);
            && s'.rows == Insert(s.rows, l, io.insert)
            && s'.cache == if InsertResult(s.rows, l, io.insert).Ok?
                           then CacheSet(s.cache, l.shortCode, Resolved(l.id, l.originalURL),
                                         CacheTtlFor(l, s.cacheTTL, io.ttlAt), io.setAt, io.warm)
                           else s.cache
  {
    hide Ends, Extends, CacheSet, CacheTtlFor, Insert, InsertResult, Base62.Code;
    t', s' := Step(cfg, t, s, Tick(io.createdAt));
    t', s' := Also(cfg, t, t', s', BuildLink(q));
    t', s' := Also(cfg, t, t', s', InsertRow(q, io.insert));
    if q in s'.jobs {
      var u := t';
      assert s'.jobs - {q} == s.jobs - {q};
      t', s' := FromSavedRuns(cfg, u, s', q, io);
      ExtendsTwice(t, u, t');
    } else {
      assert s'.jobs == s.jobs - {q};
    }
  }

  /** A whole creation that no other request interrupts is the service's Create. */
  lemma CreateRuns(cfg: Config, t: Trace, s: State, q: nat, first: int, waited: int, io: CreateIO)
    returns (t': Trace, s': State)
    requires Ends(cfg, t, s) && q in s.jobs && s.jobs[q].task.Requested?
    requires CanDraw(s, s.jobs[q].worker, first, waited)
    requires s.now <= io.createdAt <= io.ttlAt <= io.setAt
    ensures Ends(cfg, t', s') && Extends(t, t') && s'.jobs == s.jobs - {q}
    ensures s'.replies == s.replies && s'.clicks == s.clicks
    ensures var task, w := s.jobs[q].task, s.jobs[q].worker;
            var drawn := NextOutcome(s.lives[w].gen, first, waited);
            var made := CreateResult(s.rows, task.userID, Some(task.url), task.expiresAt, drawn, io);
            && s'.lives == s.lives[w := s.lives[w].(gen := NextGen(s.lives[w].gen, first, waited))]
            && s'.rows == CreateRows(s.rows, task.userID, Some(task.url), task.expiresAt, drawn, io)
            && s'.cache == CreateCache(s.cache, made, s.cacheTTL, io)
  {
    hide Ends, Extends, CacheSet, CacheTtlFor, Base62.Code, Pack, Insert, InsertResult, Legal;
    t', s' := Step(cfg, t, s, DrawId(q, first, waited));
    if q in s'.jobs {
      var u := t';
      t', s' := FromNumberRuns(cfg, u, s', q, io);
      ExtendsTwice(t, u, t');
    }
    assert s'.jobs == s.jobs - {q};
  }

  // ---------- requests and the environment ----------

  /** Any running instance accepts any creation with a valid URL and any redirect. */
  lemma AcceptRuns(cfg: Config, t: Trace, s: State, w: int, userID: string, url: string, expiresAt: Option<int>,
                   code: string)
    returns (t': Trace, s': State)
    requires Ends(cfg, t, s) && w in s.lives && url != ""
    ensures Ends(cfg, t', s') && Extends(t, t')
    ensures s'.jobs == s.jobs[s.nextJob := Job(w, Requested(userID, url, expiresAt))]
                             [s.nextJob + 1 := Job(w, Probing(code, s.steps + 1))]
    ensures s' == s.(jobs := s'.jobs, nextJob := s.nextJob + 2, steps := s'.steps)
  {
    hide Ends, Extends;
    t', s' := Step(cfg, t, s, SubmitCreate(w, userID, url, expiresAt));
    t', s' := Also(cfg, t, t', s', SubmitRedirect(w, code));
  }

  /** At any point an instance may start, or restart with all generator fields zero. */
  lemma RestartRuns(cfg: Config, t: Trace, s: State, w: int) returns (t': Trace, s': State)
    requires Ends(cfg, t, s) && (w in s.lives || 0 <= w <= 1023)
    ensures Ends(cfg, t', s') && Extends(t, t')
    ensures w in s'.lives && s'.lives[w].gen == Gen(w, 0, 0)
    ensures s' == s.(lives := s.lives[w := s'.lives[w]], steps := s'.steps)
  {
    hide Ends, Extends;
    t', s' := Step(cfg, t, s, if w in s.lives then Reboot(w) else Boot(w));
  }

  /** At any point the cache may forget any of its entries, and only those. */
  lemma {:induction false} ForgetRuns(cfg: Config, t: Trace, s: State, lost: set<string>)
    returns (t': Trace, s': State)
    requires Ends(cfg, t, s) && lost <= s.cache.Keys
    ensures Ends(cfg, t', s') && Extends(t, t')
    ensures s' == s.(cache := s.cache - lost, steps := s'.steps)
    decreases |lost|
  {
    hide Ends;
    if lost == {} {
      t', s' := t, s;
      assert s.cache - {} == s.cache;
    } else {
      var code :| code in lost;
      t', s' := Step(cfg, t, s, Evict(code));
      var u := t';
      assert (s.cache - {code}) - (lost - {code}) == s.cache - lost;
      t', s' := ForgetRuns(cfg, u, s', lost - {code});
      ExtendsTwice(t, u, t');
    }
  }

  /** At any point a request may vanish, and nothing else changes. */
  lemma VanishRuns(cfg: Config, t: Trace, s: State, q: nat) returns (t': Trace, s': State)
    requires Ends(cfg, t, s) && q in s.jobs
    ensures Ends(cfg, t', s') && Extends(t, t')
    ensures s' == s.(jobs := s.jobs - {q}, steps := s'.steps)
  {
    hide Ends, Extends;
    t', s' := Step(cfg, t, s, Abandon(q));
  }
}
