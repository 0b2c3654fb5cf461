/** What every reachable state of the service keeps: IDs and codes never repeat,
    and cache, jobs and click events agree with the table. */
module SystemSafety {
  import opened Wrappers
  import opened Int64
  import opened Links
  import opened Stores
  import opened Snowflake
  import opened LinkService
  import opened Redirects
  import opened System
  import Base62

  // ---------- the invariant ----------

  /** No ID of this worker has a stamp beyond this position. */
  function Top(life: Life): int {
    if life.gen.lastMs == 0 then Key(life.floor, MAX_SEQUENCE) else Key(life.gen.lastMs, life.gen.sequence)
  }

  predicate LifeOk(w: int, life: Life) {
    && life.gen.worker == w && ValidGen(life.gen)
    && EPOCH - 1 <= life.floor < EPOCH + WINDOW
    && (life.gen == Fresh(w) || (InWindow(life.gen.lastMs) && life.gen.lastMs > life.floor))
  }

  predicate DrawOk(s: State, d: Draw) {
    && ValidFields(d.worker, d.sequence) && InWindow(d.ms)
    && d.id == Layout(d.ms, d.worker, d.sequence)
    && d.worker in s.lives && Key(d.ms, d.sequence) <= Top(s.lives[d.worker])
    && d.job < s.nextJob
  }

  predicate DistinctIds(drawn: seq<Draw>) {
    forall i, j :: 0 <= i < j < |drawn| ==> drawn[i].id != drawn[j].id
  }

  ghost predicate DrawsInv(s: State) {
    && (forall w :: w in s.lives ==> LifeOk(w, s.lives[w]))
    && (forall d :: d in s.drawn ==> DrawOk(s, d))
    && DistinctIds(s.drawn)
  }

  predicate PastInsert(t: Task) {
    !t.Requested? && !t.Numbered? && !t.Built?
  }

  /** d is the draw that numbered the link, and its request has left the insert behind. */
  ghost predicate Source(s: State, d: Draw, l: Link) {
    d in s.drawn && d.id == l.id && d.use == ForLink
    && (d.job in s.jobs ==> PastInsert(s.jobs[d.job].task))
  }

  ghost predicate RowOk(s: State, c: string) {
    c in s.rows
    && (var l := s.rows[c];
        && l.shortCode == c == Base62.Code(l.id) && l.originalURL != ""
        && exists d :: Source(s, d, l))
  }

  ghost predicate RowsInv(s: State) {
    forall c :: c in s.rows ==> RowOk(s, c)
  }

  ghost predicate Owns(s: State, q: nat, id: int) {
    exists d :: d in s.drawn && d.id == id && d.job == q && d.use == ForLink
  }

  predicate HasRow(s: State, code: string, row: Link) {
    code in s.rows && s.rows[code] == row
  }

  ghost predicate TaskOk(s: State, q: nat, t: Task) {
    match t
    case Requested(_, url, _) => url != ""
    case Numbered(_, url, _, id) => url != "" && Owns(s, q, id)
    case Built(l) => l.originalURL != "" && l.shortCode == Base62.Code(l.id) && Owns(s, q, l.id)
    case Saved(l) => HasRow(s, l.shortCode, l)
    case SavedTimed(l, ttl, at) =>
      HasRow(s, l.shortCode, l) && at <= s.now && ttl == CacheTtlFor(l, s.cacheTTL, at)
    case Probing(_, _) => true
    case Missed(_, _) => true
    case Fetched(code, _, row) => HasRow(s, code, row)
    case Checked(code, _, row, _) => HasRow(s, code, row)
    case CheckedTimed(code, _, row, _, ttl, at) =>
      HasRow(s, code, row) && at <= s.now && ttl == CacheTtlFor(row, s.cacheTTL, at)
    case Redirected(code, res) => code in s.rows && res == ResolvedOf(s.rows[code])
  }

  ghost predicate JobsInv(s: State) {
    forall q :: q in s.jobs ==> q < s.nextJob && s.jobs[q].worker in s.lives && TaskOk(s, q, s.jobs[q].task)
  }

  /** Each entry mirrors its row and outlives it by at most the recorded lag. */
  predicate EntryOk(s: State, c: string, e: Entry) {
    && c in s.rows && e.res == ResolvedOf(s.rows[c])
    && (s.rows[c].expiresAt.Some? ==> e.deadline <= s.rows[c].expiresAt.value + s.lag)
  }

  ghost predicate CacheInv(s: State) {
    forall c :: c in s.cache ==> EntryOk(s, c, s.cache[c])
  }

  ghost predicate ClickOk(s: State, ev: ClickEvent) {
    && ev.shortCode in s.rows
    && ev.linkID == s.rows[ev.shortCode].id && ev.originalURL == s.rows[ev.shortCode].originalURL
    && exists d :: d in s.drawn && d.id == ev.eventID && d.use == ForClick
  }

  ghost predicate ClicksInv(s: State) {
    && (forall ev :: ev in s.clicks ==> ClickOk(s, ev))
    && (forall i, j :: 0 <= i < j < |s.clicks| ==> s.clicks[i].eventID != s.clicks[j].eventID)
  }

  ghost predicate Inv(s: State) {
    s.cacheTTL <= MAX_DURATION && DrawsInv(s) && RowsInv(s) && JobsInv(s) && CacheInv(s) && ClicksInv(s)
  }

  // ---------- what every step only adds to ----------

  ghost predicate Grows(s: State, s': State) {
    && s'.cacheTTL == s.cacheTTL && s.now <= s'.now && s.lag <= s'.lag && s.nextJob <= s'.nextJob
    && (forall w :: w in s.lives ==> w in s'.lives && Top(s.lives[w]) <= Top(s'.lives[w]))
    && s.drawn <= s'.drawn
    && (forall c :: c in s.rows ==> c in s'.rows && s'.rows[c] == s.rows[c])
    && (forall q :: q in s'.jobs ==>
          (q in s.jobs && (PastInsert(s.jobs[q].task) ==> PastInsert(s'.jobs[q].task))) || q >= s.nextJob)
  }

  /** Facts about the old rows, jobs, entries and clicks survive growth. */
  lemma GrowthKeeps(s: State, s': State)
    requires Inv(s) && Grows(s, s')
    ensures forall c :: c in s.rows ==> RowOk(s', c)
    ensures forall d :: d in s.drawn ==> DrawOk(s', d)
    ensures forall q :: q in s.jobs ==>
              q < s'.nextJob && s.jobs[q].worker in s'.lives && TaskOk(s', q, s.jobs[q].task)
    ensures forall c :: c in s.cache ==> EntryOk(s', c, s.cache[c])
    ensures forall ev :: ev in s.clicks ==> ClickOk(s', ev)
  {
    hide Pack, Base62.Code, Top;
    forall c | c in s.rows ensures RowOk(s', c) {
      assert RowOk(s, c);
      var d :| Source(s, d, s.rows[c]);
      assert DrawOk(s, d);
      assert Source(s', d, s'.rows[c]);
    }
    forall q | q in s.jobs ensures q < s'.nextJob && s.jobs[q].worker in s'.lives && TaskOk(s', q, s.jobs[q].task) {
      assert TaskOk(s, q, s.jobs[q].task);
    }
    forall ev | ev in s.clicks ensures ClickOk(s', ev) {
      assert ClickOk(s, ev);
      var d :| d in s.drawn && d.id == ev.eventID && d.use == ForClick;
      assert d in s'.drawn;
    }
  }

  // ---------- every step keeps the invariant ----------

  /** What a step owes beyond growth: its new draws, rows, jobs, entries and clicks. */
  lemma KeptIf(s: State, s': State)
    requires Inv(s) && Grows(s, s')
    requires DrawsInv(s')
    requires forall c :: c in s'.rows && c !in s.rows ==> RowOk(s', c)
    requires forall q :: q in s'.jobs && !(q in s.jobs && s'.jobs[q] == s.jobs[q]) ==>
               q < s'.nextJob && s'.jobs[q].worker in s'.lives && TaskOk(s', q, s'.jobs[q].task)
    requires forall c :: c in s'.cache && !(c in s.cache && s'.cache[c] == s.cache[c]) ==> EntryOk(s', c, s'.cache[c])
    requires s'.clicks == s.clicks || ClicksInv(s')
    ensures Inv(s')
  {
    hide RowOk, TaskOk, EntryOk, ClickOk, Grows, DrawOk;
    GrowthKeeps(s, s');
    assert s'.cacheTTL == s.cacheTTL by { GrowsFields(s, s'); }
    assert forall c :: c in s'.rows ==> RowOk(s', c);
  }

  lemma GrowsFields(s: State, s': State)
    requires Grows(s, s')
    ensures s'.cacheTTL == s.cacheTTL && s.now <= s'.now && s.nextJob <= s'.nextJob
    ensures forall c :: c in s.rows ==> c in s'.rows && s'.rows[c] == s.rows[c]
  {
  }

  lemma TaskGrows(s: State, s': State, q: nat, t: Task)
    requires Grows(s, s') && TaskOk(s, q, t)
    ensures TaskOk(s', q, t)
  {
    hide Base62.Code, Top;
  }

  lemma DrawsUntouched(s: State, s': State)
    requires DrawsInv(s) && s'.lives == s.lives && s'.drawn == s.drawn && s'.nextJob >= s.nextJob
    ensures DrawsInv(s')
    ensures forall w :: w in s.lives ==> w in s'.lives && Top(s.lives[w]) <= Top(s'.lives[w])
  {
    hide Pack, DistinctIds, LifeOk, Top;
    forall d | d in s'.drawn ensures DrawOk(s', d) {
      assert DrawOk(s, d);
    }
  }

  /** Only jobs, replies, the step count and the time move on. */
  lemma JobsMove(s: State, s': State)
    requires Inv(s)
    requires s' == s.(jobs := s'.jobs, replies := s'.replies, steps := s'.steps, now := s'.now, nextJob := s'.nextJob)
    requires s.now <= s'.now && s.nextJob <= s'.nextJob
    requires forall q :: q in s'.jobs ==>
               (q in s.jobs && (PastInsert(s.jobs[q].task) ==> PastInsert(s'.jobs[q].task))) || q >= s.nextJob
    requires forall q :: q in s'.jobs && !(q in s.jobs && s'.jobs[q] == s.jobs[q]) ==>
               q < s'.nextJob && s'.jobs[q].worker in s.lives && TaskOk(s, q, s'.jobs[q].task)
    ensures Inv(s')
  {
    hide RowOk, EntryOk, ClickOk, TaskOk, PastInsert, DrawsInv, Top;
    DrawsUntouched(s, s');
    forall q | q in s'.jobs && !(q in s.jobs && s'.jobs[q] == s.jobs[q])
      ensures q < s'.nextJob && s'.jobs[q].worker in s'.lives && TaskOk(s', q, s'.jobs[q].task)
    {
      TaskGrows(s, s', q, s'.jobs[q].task);
    }
    KeptIf(s, s');
  }

  lemma MoveKeeps(s: State, q: nat, t: Task)
    requires Inv(s) && q in s.jobs && TaskOk(s, q, t)
    requires PastInsert(s.jobs[q].task) ==> PastInsert(t)
    ensures Inv(Move(s, q, t))
  {
    hide TaskOk, RowsInv, CacheInv, ClicksInv, DrawsInv;
    JobsMove(s, Move(s, q, t));
  }

  lemma FinishKeeps(s: State, q: nat)
    requires Inv(s)
    ensures Inv(Finish(s, q))
  {
    hide TaskOk, RowsInv, CacheInv, ClicksInv, DrawsInv;
    JobsMove(s, Finish(s, q));
  }

  lemma AnswerKeeps(s: State, q: nat, code: string, began: nat, decided: nat, a: Result<Resolved, Error>)
    requires Inv(s) && q in s.jobs
    requires a.Ok? ==> code in s.rows && a.value == ResolvedOf(s.rows[code])
    ensures Inv(Answer(s, q, code, began, decided, a))
  {
    hide RowsInv, CacheInv, ClicksInv, DrawsInv;
    JobsMove(s, Answer(s, q, code, began, decided, a));
  }

  // ---------- one lemma per step ----------

  lemma BuildKeeps(s: State, q: nat)
    requires Inv(s) && Enabled(s, BuildLink(q))
    ensures Inv(BuildStep(s, q))
  {
    hide RowsInv, CacheInv, ClicksInv, DrawsInv;
    var t := s.jobs[q].task;
    assert TaskOk(s, q, t);
    MoveKeeps(s, q, Built(NewLink(t.id, t.url, t.userID, s.now, t.expiresAt)));
  }

  /** The heart of it: a link about to be inserted conflicts with no row. */
  lemma InsertFresh(s: State, q: nat)
    requires Inv(s) && q in s.jobs && s.jobs[q].task.Built?
    ensures !Conflicts(s.rows, s.jobs[q].task.link)
    ensures 0 <= s.jobs[q].task.link.id < TWO63
  {
    hide Pack, Base62.Code, Top;
    var l := s.jobs[q].task.link;
    assert TaskOk(s, q, s.jobs[q].task);
    var d :| d in s.drawn && d.id == l.id && d.job == q && d.use == ForLink;
    DrawnIsId(s, d);
    forall c | c in s.rows ensures s.rows[c].id != l.id && c != l.shortCode {
      assert RowOk(s, c);
      var d' :| Source(s, d', s.rows[c]);
      DrawnIsId(s, d');
      if d'.id == d.id {
        SameDraw(s, d, d');
      } else if c == l.shortCode {
        Base62.CodeInjective(d.id, d'.id);
      }
    }
  }

  lemma DrawnIsId(s: State, d: Draw)
    requires DrawsInv(s) && d in s.drawn
    ensures 0 <= d.id < TWO63
  {
    hide Top;
    assert DrawOk(s, d);
  }

  lemma SameDraw(s: State, d: Draw, d': Draw)
    requires DrawsInv(s) && d in s.drawn && d' in s.drawn && d.id == d'.id
    ensures d == d'
  {
    hide DrawOk;
    var i :| 0 <= i < |s.drawn| && s.drawn[i] == d;
    var j :| 0 <= j < |s.drawn| && s.drawn[j] == d';
  }

  lemma ConflictsOnCode(rows: Table, l: Link)
    ensures l.shortCode in rows ==> Conflicts(rows, l)
  {
  }

  lemma InsertKeeps(s: State, q: nat, fault: Fault)
    requires Inv(s) && Enabled(s, InsertRow(q, fault))
    ensures Inv(InsertStep(s, q, fault))
  {
    hide Base62.Code, Top, EntryOk, ClickOk, DrawsInv, Conflicts;
    InsertFresh(s, q);
    assert s.jobs[q].task.link.shortCode !in s.rows by { ConflictsOnCode(s.rows, s.jobs[q].task.link); }
    var s', l := InsertStep(s, q, fault), s.jobs[q].task.link;
    assert TaskOk(s, q, s.jobs[q].task);
    DrawsUntouched(s, s');
    assert Grows(s, s');
    forall c | c in s'.rows && c !in s.rows ensures RowOk(s', c) {
      var d :| d in s.drawn && d.id == l.id && d.job == q && d.use == ForLink;
      assert Source(s', d, l);
    }
    KeptIf(s, s');
  }

  lemma ProbeKeeps(s: State, q: nat, fails: bool)
    requires Inv(s) && Enabled(s, Probe(q, fails))
    ensures Inv(ProbeStep(s, q, fails))
  {
    hide RowsInv, ClicksInv, DrawsInv;
    var t := s.jobs[q].task;
    match if fails then None else CacheGet(s.cache, t.code, s.now)
    case Some(res) =>
      assert EntryOk(s, t.code, s.cache[t.code]);
      AnswerKeeps(s, q, t.code, t.began, s.steps, Ok(res));
    case None => MoveKeeps(s, q, Missed(t.code, t.began));
  }

  lemma FetchKeeps(s: State, q: nat, fails: bool)
    requires Inv(s) && Enabled(s, FetchRow(q, fails))
    ensures Inv(FetchStep(s, q, fails))
  {
    hide RowsInv, CacheInv, ClicksInv, DrawsInv;
    var t := s.jobs[q].task;
    match if fails then Err(Database) else Lookup(s.rows, t.code)
    case Ok(row) => MoveKeeps(s, q, Fetched(t.code, t.began, row));
    case Err(err) => AnswerKeeps(s, q, t.code, t.began, s.steps, Err(err));
  }

  lemma CheckKeeps(s: State, q: nat)
    requires Inv(s) && Enabled(s, CheckExpiry(q))
    ensures Inv(CheckStep(s, q))
  {
    hide RowsInv, CacheInv, ClicksInv, DrawsInv;
    var t := s.jobs[q].task;
    assert TaskOk(s, q, t);
    if IsExpired(t.row, s.now) {
      AnswerKeeps(s, q, t.code, t.began, s.steps, Err(Expired));
    } else {
      MoveKeeps(s, q, Checked(t.code, t.began, t.row, s.steps));
    }
  }

  lemma TimeKeeps(s: State, q: nat)
    requires Inv(s) && Enabled(s, ComputeTtl(q))
    ensures Inv(TimeStep(s, q))
  {
    hide RowsInv, CacheInv, ClicksInv, DrawsInv;
    var t := s.jobs[q].task;
    assert TaskOk(s, q, t);
    if t.Saved? {
      MoveKeeps(s, q, SavedTimed(t.link, CacheTtlFor(t.link, s.cacheTTL, s.now), s.now));
    } else {
      MoveKeeps(s, q, CheckedTimed(t.code, t.began, t.row, t.decided, CacheTtlFor(t.row, s.cacheTTL, s.now), s.now));
    }
  }

  /** Writing an entry whose TTL was computed at time `at`. */
  lemma WarmEntry(s: State, code: string, l: Link, at: int, fault: Fault)
    requires Inv(s) && HasRow(s, code, l) && at <= s.now
    ensures Inv(Warm(s, code, l, CacheTtlFor(l, s.cacheTTL, at), at, fault))
  {
    hide RowOk, TaskOk, ClickOk, DrawsInv, PastInsert, Top;
    var ttl := CacheTtlFor(l, s.cacheTTL, at);
    var s' := Warm(s, code, l, ttl, at, fault);
    DrawsUntouched(s, s');
    if ttl > 0 && !fault.Refused? && l.expiresAt.Some? {
      OutlivesIff(l, s.cacheTTL, at, s.now);
    }
    KeptIf(s, s');
  }

  lemma WarmKeeps(s: State, q: nat, fault: Fault)
    requires Inv(s) && Enabled(s, WarmCache(q, fault))
    ensures Inv(WarmStep(s, q, fault))
  {
    hide RowsInv, CacheInv, ClicksInv, DrawsInv, CacheSet, CacheTtlFor;
    var t := s.jobs[q].task;
    assert TaskOk(s, q, t);
    if t.SavedTimed? {
      WarmEntry(s, t.link.shortCode, t.link, t.at, fault);
      FinishKeeps(Warm(s, t.link.shortCode, t.link, t.ttl, t.at, fault), q);
    } else {
      WarmEntry(s, t.code, t.row, t.at, fault);
      AnswerKeeps(Warm(s, t.code, t.row, t.ttl, t.at, fault), q, t.code, t.began, t.decided, Ok(ResolvedOf(t.row)));
    }
  }

  /** A draw issues an ID that no instance in no earlier life has issued. */
  lemma TakeFresh(s: State, q: nat, first: int, waited: int)
    requires DrawsInv(s) && q in s.jobs && CanDraw(s, s.jobs[q].worker, first, waited)
    requires NextOutcome(s.lives[s.jobs[q].worker].gen, first, waited).Issued?
    ensures var g := NextGen(s.lives[s.jobs[q].worker].gen, first, waited);
            && ValidGen(g) && g.worker == s.jobs[q].worker && InWindow(g.lastMs)
            && Top(s.lives[g.worker]) < Key(g.lastMs, g.sequence)
            && (forall d :: d in s.drawn ==> d.id != Pack(g.lastMs, g.worker, g.sequence))
  {
    hide Pack, DistinctIds;
    var w := s.jobs[q].worker;
    var life := s.lives[w];
    assert LifeOk(w, life);
    var g := NextGen(life.gen, first, waited);
    NextAdvances(life.gen, first, waited);
    assert Top(life) < Key(g.lastMs, g.sequence);
    PackRefinesLayout(g.lastMs, g.worker, g.sequence);
    forall d | d in s.drawn ensures d.id != Pack(g.lastMs, g.worker, g.sequence) {
      assert DrawOk(s, d);
      LayoutOrder(d.ms, d.worker, d.sequence, g.lastMs, g.worker, g.sequence);
    }
  }

  lemma TakeDraws(s: State, q: nat, use: Use, first: int, waited: int)
    requires DrawsInv(s) && q in s.jobs && q < s.nextJob && CanDraw(s, s.jobs[q].worker, first, waited)
    requires NextOutcome(s.lives[s.jobs[q].worker].gen, first, waited).Issued?
    ensures DrawsInv(Take(s, q, use, first, waited))
    ensures Grows(s, Take(s, q, use, first, waited))
  {
    hide Pack, NextGen, NextOutcome, Legal;
    TakeFresh(s, q, first, waited);
    var s' := Take(s, q, use, first, waited);
    var w := s.jobs[q].worker;
    var g := NextGen(s.lives[w].gen, first, waited);
    assert LifeOk(w, s.lives[w]);
    var d' := s'.drawn[|s.drawn|];
    PackRefinesLayout(g.lastMs, w, g.sequence);
    forall d | d in s'.drawn ensures DrawOk(s', d) {
      assert d in s.drawn || d == d';
      assert d in s.drawn ==> DrawOk(s, d);
    }
    assert DistinctIds(s'.drawn);
  }

  lemma TakeKeeps(s: State, q: nat, use: Use, first: int, waited: int)
    requires Inv(s) && q in s.jobs && CanDraw(s, s.jobs[q].worker, first, waited)
    requires NextOutcome(s.lives[s.jobs[q].worker].gen, first, waited).Issued?
    ensures Inv(Take(s, q, use, first, waited))
    ensures var s' := Take(s, q, use, first, waited);
            var g := NextGen(s.lives[s.jobs[q].worker].gen, first, waited);
            var id := NextOutcome(s.lives[s.jobs[q].worker].gen, first, waited).id;
            && Draw(id, g.worker, g.lastMs, g.sequence, q, use) in s'.drawn
            && (forall d :: d in s.drawn ==> d.id != id)
  {
    hide Pack, NextGen, Legal, RowOk, TaskOk, ClickOk, EntryOk, DrawsInv, Grows, CanDraw;
    TakeFresh(s, q, first, waited);
    TakeDraws(s, q, use, first, waited);
    var s' := Take(s, q, use, first, waited);
    var g := NextGen(s.lives[s.jobs[q].worker].gen, first, waited);
    assert s'.drawn[|s.drawn|] in s'.drawn;
    KeptIf(s, s');
  }

  lemma DrawKeeps(s: State, q: nat, first: int, waited: int)
    requires Inv(s) && Enabled(s, DrawId(q, first, waited))
    ensures Inv(DrawStep(s, q, first, waited))
  {
    hide Pack, NextGen, Legal, RowsInv, ClicksInv, CacheInv, DrawsInv, CanDraw, Base62.Code;
    var t := s.jobs[q].task;
    assert TaskOk(s, q, t);
    match NextOutcome(s.lives[s.jobs[q].worker].gen, first, waited)
    case Issued(id) =>
      TakeKeeps(s, q, ForLink, first, waited);
      var s' := Take(s, q, ForLink, first, waited);
      assert Owns(s', q, id);
      MoveKeeps(s', q, Numbered(t.userID, t.url, t.expiresAt, id));
    case ClockBackwards(_) => FinishKeeps(s, q);
  }

  /** Publishing an event with a freshly drawn ID and the data of the row. */
  lemma ClickKeeps(s: State, ev: ClickEvent)
    requires Inv(s) && ClickOk(s, ev)
    requires forall e :: e in s.clicks ==> e.eventID != ev.eventID
    ensures Inv(s.(clicks := s.clicks + [ev]))
  {
    hide RowOk, TaskOk, EntryOk, DrawsInv, Top, PastInsert;
    var s' := s.(clicks := s.clicks + [ev]);
    DrawsUntouched(s, s');
    assert Grows(s, s');
    forall e | e in s'.clicks ensures ClickOk(s', e) {
      assert e in s.clicks || e == ev;
      assert ClickOk(s, e);
    }
    KeptIf(s, s');
  }

  lemma PublishKeeps(s: State, q: nat, first: int, waited: int)
    requires Inv(s) && Enabled(s, PublishClick(q, first, waited))
    ensures Inv(PublishStep(s, q, first, waited))
  {
    hide Pack, NextGen, Legal, RowsInv, CacheInv, DrawsInv, CanDraw, Base62.Code;
    var t := s.jobs[q].task;
    assert TaskOk(s, q, t);
    match NextOutcome(s.lives[s.jobs[q].worker].gen, first, waited)
    case Issued(id) =>
      TakeKeeps(s, q, ForClick, first, waited);
      var s' := Take(s, q, ForClick, first, waited);
      var ev := ClickEvent(id, t.res.linkID, t.code, t.res.originalURL);
      forall e | e in s'.clicks ensures e.eventID != ev.eventID {
        assert ClickOk(s, e);
      }
      ClickKeeps(s', ev);
      FinishKeeps(s'.(clicks := s.clicks + [ev]), q);
    case ClockBackwards(_) => FinishKeeps(s, q);
  }

  lemma BootKeeps(s: State, w: int)
    requires Inv(s) && Enabled(s, Boot(w))
    ensures Inv(BootStep(s, w))
  {
    hide Pack, RowOk, TaskOk, ClickOk, EntryOk, DistinctIds, PastInsert;
    KeptIf(s, BootStep(s, w));
  }

  lemma RebootKeeps(s: State, w: int)
    requires Inv(s) && Enabled(s, Reboot(w))
    ensures Inv(RebootStep(s, w))
  {
    hide Pack, RowOk, TaskOk, ClickOk, EntryOk, DistinctIds, PastInsert;
    assert LifeOk(w, s.lives[w]);
    KeptIf(s, RebootStep(s, w));
  }

  lemma SubmitKeeps(s: State, w: int, t: Task)
    requires Inv(s) && w in s.lives && TaskOk(s, s.nextJob, t)
    ensures Inv(Submit(s, w, t))
  {
    hide TaskOk, RowsInv, CacheInv, ClicksInv, DrawsInv;
    JobsMove(s, Submit(s, w, t));
  }

  lemma EvictKeeps(s: State, code: string)
    requires Inv(s)
    ensures Inv(s.(cache := s.cache - {code}))
  {
    hide RowOk, TaskOk, ClickOk, EntryOk, DrawsInv, PastInsert, Top;
    var s' := s.(cache := s.cache - {code});
    DrawsUntouched(s, s');
    KeptIf(s, s');
  }

  lemma EffectKeeps(s: State, e: Event)
    requires Inv(s) && Enabled(s, e)
    ensures Inv(Effect(s, e))
  {
    hide Inv, DrawStep, BuildStep, InsertStep, ProbeStep, FetchStep, CheckStep, TimeStep, WarmStep,
      PublishStep, BootStep, RebootStep, Submit, Finish, CanDraw;
    match e
    case Tick(to) => TickKeeps(s, to);
    case Evict(code) => EvictKeeps(s, code);
    case Boot(w) => BootKeeps(s, w);
    case Reboot(w) => RebootKeeps(s, w);
    case SubmitCreate(w, user, url, exp) => SubmitKeeps(s, w, Requested(user, url, exp));
    case SubmitRedirect(w, code) => SubmitKeeps(s, w, Probing(code, s.steps));
    case Abandon(q) => FinishKeeps(s, q);
    case DrawId(q, first, waited) => DrawKeeps(s, q, first, waited);
    case BuildLink(q) => BuildKeeps(s, q);
    case InsertRow(q, fault) => InsertKeeps(s, q, fault);
    case Probe(q, fails) => ProbeKeeps(s, q, fails);
    case FetchRow(q, fails) => FetchKeeps(s, q, fails);
    case CheckExpiry(q) => CheckKeeps(s, q);
    case ComputeTtl(q) => TimeKeeps(s, q);
    case WarmCache(q, fault) => WarmKeeps(s, q, fault);
    case PublishClick(q, first, waited) => PublishKeeps(s, q, first, waited);
  }

  lemma TickKeeps(s: State, to: int)
    requires Inv(s) && to >= s.now
    ensures Inv(s.(now := to))
  {
    hide TaskOk, RowsInv, CacheInv, ClicksInv, DrawsInv;
    JobsMove(s, s.(now := to));
  }

  lemma ApplyKeeps(s: State, e: Event)
    requires Inv(s) && Enabled(s, e)
    ensures Inv(Apply(s, e))
  {
    EffectKeeps(s, e);
    hide TaskOk, RowsInv, CacheInv, ClicksInv, DrawsInv, Effect, Enabled;
    JobsMove(Effect(s, e), Apply(s, e));
  }

  lemma StartInv(cfg: Config)
    requires cfg.cacheTTL <= MAX_DURATION
    ensures Inv(Start(cfg.cacheTTL, cfg.now))
  {
  }

  /** Every state of every behaviour satisfies the invariant. */
  lemma {:induction false} Reachable(cfg: Config, t: Trace, k: nat)
    requires cfg.cacheTTL <= MAX_DURATION && Behaviour(cfg, t) && k < |t.states|
    ensures Inv(t.states[k])
  {
    hide Inv, Apply, Enabled;
    if k == 0 {
      StartInv(cfg);
    } else {
      Reachable(cfg, t, k - 1);
      assert StepAt(t, k - 1);
      ApplyKeeps(t.states[k - 1], t.events[k - 1]);
    }
  }

  // ---------- the safety theorems ----------

  /** No unique-key violation is reachable: whatever the interleaving, the faults,
      the restarts and the generator clocks, a row about to be inserted has an
      in-range ID and shares neither its ID nor its code with any row. */
  lemma NoCollision(cfg: Config, t: Trace, k: nat, q: nat)
    requires cfg.cacheTTL <= MAX_DURATION && Behaviour(cfg, t) && k < |t.states|
    requires q in t.states[k].jobs && t.states[k].jobs[q].task.Built?
    ensures var s := t.states[k];
            var l := s.jobs[q].task.link;
            && 0 <= l.id < TWO63 && l.shortCode == Base62.Code(l.id)
            && l.shortCode !in s.rows && (forall c :: c in s.rows ==> s.rows[c].id != l.id)
            && !Conflicts(s.rows, l) && InsertResult(s.rows, l, Healthy) == Ok(())
  {
    hide Behaviour;
    Reachable(cfg, t, k);
    InsertFresh(t.states[k], q);
    assert TaskOk(t.states[k], q, t.states[k].jobs[q].task);
  }

  /** IDs of links and of click events are pairwise distinct over all instances. */
  lemma IdsDistinct(cfg: Config, t: Trace, k: nat)
    requires cfg.cacheTTL <= MAX_DURATION && Behaviour(cfg, t) && k < |t.states|
    ensures var s := t.states[k];
            && (forall i, j :: 0 <= i < j < |s.drawn| ==> s.drawn[i].id != s.drawn[j].id)
            && (forall c, c' :: c in s.rows && c' in s.rows && s.rows[c].id == s.rows[c'].id ==> c == c')
            && (forall c, ev :: c in s.rows && ev in s.clicks ==> s.rows[c].id != ev.eventID)
            && (forall i, j :: 0 <= i < j < |s.clicks| ==> s.clicks[i].eventID != s.clicks[j].eventID)
  {
    hide Base62.Code, Top, DrawOk, Behaviour;
    Reachable(cfg, t, k);
    var s := t.states[k];
    forall c, c' | c in s.rows && c' in s.rows && s.rows[c].id == s.rows[c'].id ensures c == c' {
      assert RowOk(s, c) && RowOk(s, c');
    }
    forall c, ev | c in s.rows && ev in s.clicks ensures s.rows[c].id != ev.eventID {
      assert RowOk(s, c) && ClickOk(s, ev);
      var d :| Source(s, d, s.rows[c]);
      var d' :| d' in s.drawn && d'.id == ev.eventID && d'.use == ForClick;
      if d.id == d'.id {
        SameDraw(s, d, d');
      }
    }
  }

  /** Every row, live or dead cache entry and published click event agrees with the
      row of its code, and every code is the encoding of its link's ID. */
  lemma AllAgree(cfg: Config, t: Trace, k: nat)
    requires cfg.cacheTTL <= MAX_DURATION && Behaviour(cfg, t) && k < |t.states|
    ensures var s := t.states[k];
            && (forall c :: c in s.rows ==>
                  s.rows[c].shortCode == c == Base62.Code(s.rows[c].id) && 0 <= s.rows[c].id < TWO63)
            && (forall c :: c in s.cache ==>
                  c in s.rows && s.cache[c].res == Resolved(s.rows[c].id, s.rows[c].originalURL))
            && (forall ev :: ev in s.clicks ==>
                  && ev.shortCode in s.rows && ev.shortCode == Base62.Code(ev.linkID)
                  && ev.linkID == s.rows[ev.shortCode].id
                  && ev.originalURL == s.rows[ev.shortCode].originalURL)
  {
    hide Base62.Code, Top, DrawOk, DistinctIds, Behaviour;
    Reachable(cfg, t, k);
    var s := t.states[k];
    forall c | c in s.rows
      ensures s.rows[c].shortCode == c == Base62.Code(s.rows[c].id) && 0 <= s.rows[c].id < TWO63
    {
      assert RowOk(s, c);
      var d :| Source(s, d, s.rows[c]);
      DrawnIsId(s, d);
    }
    forall c | c in s.cache
      ensures c in s.rows && s.cache[c].res == Resolved(s.rows[c].id, s.rows[c].originalURL)
    {
      assert EntryOk(s, c, s.cache[c]);
    }
    forall ev | ev in s.clicks
      ensures ev.shortCode in s.rows && ev.linkID == s.rows[ev.shortCode].id
              && ev.originalURL == s.rows[ev.shortCode].originalURL
    {
      assert ClickOk(s, ev);
    }
  }

  /** A cache hit is never served later than the expiry time plus the lag. */
  lemma BoundedStaleness(cfg: Config, t: Trace, k: nat, code: string)
    requires cfg.cacheTTL <= MAX_DURATION && Behaviour(cfg, t) && k < |t.states|
    requires CacheGet(t.states[k].cache, code, t.states[k].now).Some?
    ensures var s := t.states[k];
            && code in s.rows
            && CacheGet(s.cache, code, s.now) == Some(ResolvedOf(s.rows[code]))
            && (s.rows[code].expiresAt.Some? ==> s.now <= s.rows[code].expiresAt.value + s.lag)
  {
    Reachable(cfg, t, k);
    assert EntryOk(t.states[k], code, t.states[k].cache[code]);
  }
}
