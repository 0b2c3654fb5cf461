/** Which click events are published: one per click draw, each for a redirect of
    its own, with exactly what that redirect answered. */
module SystemClicks {
  import opened Wrappers
  import opened Links
  import opened Stores
  import opened Snowflake
  import opened LinkService
  import opened Redirects
  import opened System
  import opened SystemSafety
  import opened SystemHistory
  import Base62

  /** The draws made for click events, in order. */
  function ClickDraws(drawn: seq<Draw>): seq<Draw> {
    if drawn == [] then []
    else
      ClickDraws(drawn[..|drawn| - 1])
      + (if drawn[|drawn| - 1].use == ForClick then [drawn[|drawn| - 1]] else [])
  }

  /** The event that the redirect behind draw d must publish. */
  predicate Carries(s: State, d: Draw, ev: ClickEvent) {
    && d.job in s.replies && s.replies[d.job].answer.Ok?
    && (var res := s.replies[d.job].answer.value;
        ev == ClickEvent(d.id, res.linkID, s.replies[d.job].code, res.originalURL))
  }

  /** A request has replied exactly when it is past its answer. */
  predicate RepliesMatch(s: State) {
    && (forall q :: q in s.replies ==> q < s.nextJob)
    && (forall q :: q in s.jobs ==>
          match s.jobs[q].task
          case Redirected(code, res) =>
            q in s.replies && s.replies[q].code == code && s.replies[q].answer == Ok(res)
          case _ => q !in s.replies)
  }

  predicate DrawsMatch(s: State) {
    var ds := ClickDraws(s.drawn);
    && |ds| == |s.clicks|
    && (forall i :: 0 <= i < |ds| ==> ds[i].job !in s.jobs && ds[i].job < s.nextJob && Carries(s, ds[i], s.clicks[i]))
    && (forall i, j :: 0 <= i < j < |ds| ==> ds[i].job != ds[j].job)
  }

  predicate Attributed(s: State) {
    RepliesMatch(s) && DrawsMatch(s) && forall q :: q in s.jobs ==> q < s.nextJob
  }

  lemma ClickDrawsAppend(drawn: seq<Draw>, d: Draw)
    ensures ClickDraws(drawn + [d]) == ClickDraws(drawn) + if d.use == ForClick then [d] else []
  {
    assert (drawn + [d])[..|drawn|] == drawn;
  }

  /** Steps that draw nothing leave the published events attributed as they were. */
  lemma Undrawn(s: State, s': State)
    requires Attributed(s) && s'.drawn == s.drawn && s'.clicks == s.clicks && s'.nextJob >= s.nextJob
    requires forall q :: q in s'.jobs ==> q in s.jobs || q >= s.nextJob
    requires forall q :: q in s.replies && q !in s.jobs ==> q in s'.replies && s'.replies[q] == s.replies[q]
    ensures DrawsMatch(s')
  {
    hide RepliesMatch, ClickDraws;
    var ds := ClickDraws(s.drawn);
    forall i | 0 <= i < |ds|
      ensures ds[i].job !in s'.jobs && ds[i].job < s'.nextJob && Carries(s', ds[i], s'.clicks[i])
    {
      assert Carries(s, ds[i], s.clicks[i]);
    }
  }

  lemma MoveAttributed(s: State, q: nat, t: Task)
    requires Attributed(s) && q in s.jobs && !s.jobs[q].task.Redirected? && !t.Redirected?
    ensures Attributed(Move(s, q, t))
  {
    hide DrawsMatch;
    Undrawn(s, Move(s, q, t));
  }

  lemma FinishAttributed(s: State, q: nat)
    requires Attributed(s)
    ensures Attributed(Finish(s, q))
  {
    hide DrawsMatch;
    Undrawn(s, Finish(s, q));
  }

  lemma AnswerAttributed(s: State, q: nat, code: string, began: nat, decided: nat, a: Result<Resolved, Error>)
    requires Attributed(s) && q in s.jobs && !s.jobs[q].task.Redirected?
    ensures Attributed(Answer(s, q, code, began, decided, a))
  {
    hide DrawsMatch;
    Undrawn(s, Answer(s, q, code, began, decided, a));
  }

  /** Changes of fields that no attribution depends on. */
  lemma OtherFields(s: State, s': State)
    requires Attributed(s)
    requires s' == s.(rows := s'.rows, cache := s'.cache, lag := s'.lag,
                      lives := s'.lives, now := s'.now, steps := s'.steps)
    ensures Attributed(s')
  {
    hide ClickDraws;
    Undrawn(s, s');
  }

  lemma SubmitAttributed(s: State, w: int, t: Task)
    requires Attributed(s) && !t.Redirected?
    ensures Attributed(Submit(s, w, t))
  {
    hide DrawsMatch;
    Undrawn(s, Submit(s, w, t));
  }

  lemma InsertAttributed(s: State, q: nat, fault: Fault)
    requires Attributed(s) && Enabled(s, InsertRow(q, fault))
    ensures Attributed(InsertStep(s, q, fault))
  {
    hide Attributed, Conflicts, InsertResult;
    var l := s.jobs[q].task.link;
    var s' := s.(rows := Insert(s.rows, l, fault));
    OtherFields(s, s');
    if InsertResult(s.rows, l, fault).Ok? {
      MoveAttributed(s', q, Saved(l));
    } else {
      FinishAttributed(s', q);
    }
  }

  lemma ProbeAttributed(s: State, q: nat, fails: bool)
    requires Attributed(s) && Enabled(s, Probe(q, fails))
    ensures Attributed(ProbeStep(s, q, fails))
  {
    hide Attributed, CacheGet, Answer, Move;
    var t := s.jobs[q].task;
    match if fails then None else CacheGet(s.cache, t.code, s.now)
    case Some(res) => AnswerAttributed(s, q, t.code, t.began, s.steps, Ok(res));
    case None => MoveAttributed(s, q, Missed(t.code, t.began));
  }

  lemma FetchAttributed(s: State, q: nat, fails: bool)
    requires Attributed(s) && Enabled(s, FetchRow(q, fails))
    ensures Attributed(FetchStep(s, q, fails))
  {
    hide Attributed, Answer, Move;
    var t := s.jobs[q].task;
    match if fails then Err(Database) else Lookup(s.rows, t.code)
    case Ok(row) => MoveAttributed(s, q, Fetched(t.code, t.began, row));
    case Err(err) => AnswerAttributed(s, q, t.code, t.began, s.steps, Err(err));
  }

  lemma CheckAttributed(s: State, q: nat)
    requires Attributed(s) && Enabled(s, CheckExpiry(q))
    ensures Attributed(CheckStep(s, q))
  {
    hide Attributed, Answer, Move;
    var t := s.jobs[q].task;
    AnswerAttributed(s, q, t.code, t.began, s.steps, Err(Expired));
    MoveAttributed(s, q, Checked(t.code, t.began, t.row, s.steps));
  }

  lemma WarmAttributed(s: State, q: nat, fault: Fault)
    requires Attributed(s) && Enabled(s, WarmCache(q, fault))
    ensures Attributed(WarmStep(s, q, fault))
  {
    hide Attributed, CacheSet, Answer, Finish;
    var t := s.jobs[q].task;
    if t.SavedTimed? {
      var s' := Warm(s, t.link.shortCode, t.link, t.ttl, t.at, fault);
      OtherFields(s, s');
      FinishAttributed(s', q);
    } else {
      var s' := Warm(s, t.code, t.row, t.ttl, t.at, fault);
      OtherFields(s, s');
      AnswerAttributed(s', q, t.code, t.began, t.decided, Ok(ResolvedOf(t.row)));
    }
  }

  lemma DrawAttributed(s: State, q: nat, first: int, waited: int)
    requires Attributed(s) && Enabled(s, DrawId(q, first, waited))
    ensures Attributed(DrawStep(s, q, first, waited))
  {
    hide Pack, NextGen, Legal, ClickDraws;
    var t := s.jobs[q].task;
    match NextOutcome(s.lives[s.jobs[q].worker].gen, first, waited)
    case Issued(id) =>
      var s' := Take(s, q, ForLink, first, waited);
      ClickDrawsAppend(s.drawn, s'.drawn[|s.drawn|]);
      assert ClickDraws(s'.drawn) == ClickDraws(s.drawn);
      assert Attributed(s') by { hide NextOutcome; Redrawn(s, s'); }
      MoveAttributed(s', q, Numbered(t.userID, t.url, t.expiresAt, id));
    case ClockBackwards(_) => FinishAttributed(s, q);
  }

  lemma Redrawn(s: State, s': State)
    requires Attributed(s) && ClickDraws(s'.drawn) == ClickDraws(s.drawn)
    requires s' == s.(lives := s'.lives, drawn := s'.drawn)
    ensures Attributed(s')
  {
    hide ClickDraws;
    var ds := ClickDraws(s.drawn);
    forall i | 0 <= i < |ds| ensures Carries(s', ds[i], s'.clicks[i]) {
      assert Carries(s, ds[i], s.clicks[i]);
    }
  }

  /** The one step that publishes: the event is the answer of its own redirect. */
  lemma PublishAttributed(s: State, q: nat, first: int, waited: int)
    requires Attributed(s) && Enabled(s, PublishClick(q, first, waited))
    ensures Attributed(PublishStep(s, q, first, waited))
  {
    hide Pack, NextGen, Legal, ClickDraws;
    var t := s.jobs[q].task;
    match NextOutcome(s.lives[s.jobs[q].worker].gen, first, waited)
    case Issued(id) =>
      var s' := PublishStep(s, q, first, waited);
      var d := s'.drawn[|s.drawn|];
      ClickDrawsAppend(s.drawn, d);
      var ds, ds' := ClickDraws(s.drawn), ClickDraws(s'.drawn);
      assert ds' == ds + [d];
      forall i | 0 <= i < |ds'|
        ensures ds'[i].job !in s'.jobs && ds'[i].job < s'.nextJob && Carries(s', ds'[i], s'.clicks[i])
      {
        if i < |ds| {
          assert ds'[i] == ds[i] && s'.clicks[i] == s.clicks[i];
          assert Carries(s, ds[i], s.clicks[i]);
        }
      }
    case ClockBackwards(_) => FinishAttributed(s, q);
  }

  lemma EffectAttributed(s: State, e: Event)
    requires Attributed(s) && Enabled(s, e)
    ensures Attributed(Effect(s, e))
  {
    hide Attributed, DrawStep, InsertStep, ProbeStep, FetchStep, CheckStep, WarmStep, PublishStep,
      Submit, Finish, Move, CanDraw, CacheTtlFor;
    match e
    case Tick(to) => OtherFields(s, Effect(s, e));
    case Evict(code) => OtherFields(s, Effect(s, e));
    case Boot(w) => OtherFields(s, Effect(s, e));
    case Reboot(w) => OtherFields(s, Effect(s, e));
    case SubmitCreate(w, user, url, exp) => SubmitAttributed(s, w, Requested(user, url, exp));
    case SubmitRedirect(w, code) => SubmitAttributed(s, w, Probing(code, s.steps));
    case Abandon(q) => FinishAttributed(s, q);
    case DrawId(q, first, waited) => DrawAttributed(s, q, first, waited);
    case BuildLink(q) =>
      var t := s.jobs[q].task;
      MoveAttributed(s, q, Built(NewLink(t.id, t.url, t.userID, s.now, t.expiresAt)));
    case InsertRow(q, fault) => InsertAttributed(s, q, fault);
    case Probe(q, fails) => ProbeAttributed(s, q, fails);
    case FetchRow(q, fails) => FetchAttributed(s, q, fails);
    case CheckExpiry(q) => CheckAttributed(s, q);
    case ComputeTtl(q) =>
      var t := s.jobs[q].task;
      if t.Saved? {
        MoveAttributed(s, q, SavedTimed(t.link, CacheTtlFor(t.link, s.cacheTTL, s.now), s.now));
      } else {
        var ttl := CacheTtlFor(t.row, s.cacheTTL, s.now);
        MoveAttributed(s, q, CheckedTimed(t.code, t.began, t.row, t.decided, ttl, s.now));
      }
    case WarmCache(q, fault) => WarmAttributed(s, q, fault);
    case PublishClick(q, first, waited) => PublishAttributed(s, q, first, waited);
  }

  lemma StartAttributed(cfg: Config)
    ensures Attributed(Start(cfg.cacheTTL, cfg.now))
  {
  }

  lemma {:induction false} AlwaysAttributed(cfg: Config, t: Trace, k: nat)
    requires Behaviour(cfg, t) && k < |t.states|
    ensures Attributed(t.states[k])
  {
    hide Attributed, Effect, Enabled;
    if k == 0 {
      StartAttributed(cfg);
    } else {
      AlwaysAttributed(cfg, t, k - 1);
      assert StepAt(t, k - 1);
      var s, e := t.states[k - 1], t.events[k - 1];
      EffectAttributed(s, e);
      OtherFields(Effect(s, e), t.states[k]);
    }
  }

  /** The published events are, in order, one for each ID drawn for a click, by
      pairwise different redirects; each carries the event ID drawn for it and the
      code, link ID and URL of the answer its own redirect gave. */
  lemma ClicksAreAnswers(cfg: Config, t: Trace, k: nat)
    requires Behaviour(cfg, t) && k < |t.states|
    ensures var s := t.states[k];
            var ds := ClickDraws(s.drawn);
            && |ds| == |s.clicks|
            && (forall i :: 0 <= i < |ds| ==> Carries(s, ds[i], s.clicks[i]))
            && (forall i, j :: 0 <= i < j < |ds| ==> ds[i].job != ds[j].job)
  {
    hide Behaviour;
    AlwaysAttributed(cfg, t, k);
  }

  // ---------- every publish step publishes ----------

  /** Step i is the publish step of a redirect whose clock reading yields an ID. */
  predicate Publishes(t: Trace, i: nat) {
    && i < |t.events| && i < |t.states| && t.events[i].PublishClick?
    && (var s, q := t.states[i], t.events[i].q;
        && q in s.jobs && s.jobs[q].task.Redirected? && s.jobs[q].worker in s.lives
        && t.events[i].first >= s.lives[s.jobs[q].worker].gen.lastMs)
  }

  lemma ClicksByStep(t: Trace, i: nat)
    requires StepAt(t, i)
    ensures !Publishes(t, i) ==> t.states[i + 1].clicks == t.states[i].clicks
    ensures Publishes(t, i) ==>
              var q := t.events[i].q;
              var res := t.states[i].jobs[q].task.res;
              && |t.states[i + 1].clicks| == |t.states[i].clicks| + 1
              && t.states[i].clicks <= t.states[i + 1].clicks
              && (var ev := t.states[i + 1].clicks[|t.states[i].clicks|];
                  && ev.linkID == res.linkID && ev.originalURL == res.originalURL
                  && ev.shortCode == t.states[i].jobs[q].task.code)
  {
    hide NextGen, NextOutcome, Legal, PublishStep, Follows, Replied;
    var s, e := t.states[i], t.events[i];
    if e.PublishClick? {
      PublishClicks(s, e.q, e.first, e.waited);
    } else {
      EffectStepped(s, e);
    }
  }

  lemma PublishClicks(s: State, q: nat, first: int, waited: int)
    requires Enabled(s, PublishClick(q, first, waited))
    ensures var t, s' := s.jobs[q].task, PublishStep(s, q, first, waited);
            if first < s.lives[s.jobs[q].worker].gen.lastMs then s'.clicks == s.clicks
            else exists id :: s'.clicks == s.clicks + [ClickEvent(id, t.res.linkID, t.code, t.res.originalURL)]
  {
    hide Pack, NextGen, Legal;
  }

  /** As many events are published as there were publish steps that got an ID. */
  lemma {:induction false} ClicksCounted(cfg: Config, t: Trace, k: nat)
    requires Behaviour(cfg, t) && k < |t.states|
    ensures |t.states[k].clicks| == |set i: nat | i < k && Publishes(t, i)|
  {
    hide Enabled, Apply, Publishes, Behaviour;
    var now := set i: nat | i < k && Publishes(t, i);
    if k == 0 {
      assert now == {} && t.states[0].clicks == [] by { NoClicksYet(cfg, t); }
    } else {
      ClicksCounted(cfg, t, k - 1);
      assert StepAt(t, k - 1) by { StepOf(cfg, t, k - 1); }
      ClicksByStep(t, k - 1);
      var earlier := set i: nat | i < k - 1 && Publishes(t, i);
      assert now == if Publishes(t, k - 1) then earlier + {k - 1} else earlier;
    }
  }

  lemma NoClicksYet(cfg: Config, t: Trace)
    requires Behaviour(cfg, t)
    ensures t.states[0].clicks == []
  {
  }

  lemma StepOf(cfg: Config, t: Trace, i: nat)
    requires Behaviour(cfg, t) && i + 1 < |t.states|
    ensures StepAt(t, i)
  {
  }

  /** Each of those steps has published the link that its redirect was sent to. */
  lemma {:induction false} EveryClickPublished(cfg: Config, t: Trace, k: nat, i: nat)
    requires Behaviour(cfg, t) && i < k < |t.states| && Publishes(t, i)
    ensures var task := t.states[i].jobs[t.events[i].q].task;
            exists ev :: ev in t.states[k].clicks && ev.shortCode == task.code
                         && ev.linkID == task.res.linkID && ev.originalURL == task.res.originalURL
    decreases k
  {
    hide Enabled, Apply, Publishes, Behaviour;
    assert StepAt(t, k - 1) by { StepOf(cfg, t, k - 1); }
    ClicksByStep(t, k - 1);
    var was, now := t.states[k - 1].clicks, t.states[k].clicks;
    if i < k - 1 {
      EveryClickPublished(cfg, t, k - 1, i);
      assert forall ev :: ev in was ==> ev in now;
    } else {
      assert now[|was|] in now;
    }
  }
}
