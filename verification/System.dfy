/** The whole service as one state machine: any number of instances with distinct
    worker IDs, restarts, interleaved Create and Redirect requests in atomic steps,
    one table, one cache that may fail or forget at any step, unrelated generator
    clocks, and the click events handed to the publisher. */
module System {
  import opened Wrappers
  import opened Links
  import opened Stores
  import opened Snowflake
  import opened LinkService
  import opened Redirects
  import Base62

  /** The running generator of a worker ID. Earlier lives of the same worker ID
      issued nothing after millisecond `floor`. */
  datatype Life = Life(gen: Gen, floor: int)

  datatype Use = ForLink | ForClick

  /** One ID drawn from a generator, by which request and for what. */
  datatype Draw = Draw(id: int, worker: int, ms: int, sequence: int, job: nat, use: Use)

  /** Where a request stands; `began` and `decided` are step numbers. */
  datatype Task =
    // Create
    | Requested(userID: string, url: string, expiresAt: Option<int>)
    | Numbered(userID: string, url: string, expiresAt: Option<int>, id: int)
    | Built(link: Link)
    | Saved(link: Link)
    | SavedTimed(link: Link, ttl: int, at: int)
    // Redirect
    | Probing(code: string, began: nat)
    | Missed(code: string, began: nat)
    | Fetched(code: string, began: nat, row: Link)
    | Checked(code: string, began: nat, row: Link, decided: nat)
    | CheckedTimed(code: string, began: nat, row: Link, decided: nat, ttl: int, at: int)
    | Redirected(code: string, res: Resolved)

  datatype Job = Job(worker: int, task: Task)

  /** What a Resolve answered: begun, decided and given at these step numbers. */
  datatype Reply = Reply(code: string, began: nat, decided: nat, at: nat, answer: Result<Resolved, Error>)

  datatype State = State(
    steps: nat,
    now: int,               // the clock of the services and of the cache
    cacheTTL: int,
    lag: nat,               // longest delay so far between computing a TTL and writing the entry
    lives: map<int, Life>,  // by worker ID
    drawn: seq<Draw>,       // every ID ever drawn, in order
    rows: Table,
    cache: Cache,
    jobs: map<nat, Job>,
    nextJob: nat,
    replies: map<nat, Reply>,
    clicks: seq<ClickEvent>)

  datatype Event =
    | Tick(to: int)
    | Evict(code: string)
    | Boot(w: int)
    | Reboot(w: int)
    | SubmitCreate(w: int, userID: string, url: string, expiresAt: Option<int>)
    | SubmitRedirect(w: int, code: string)
    | Abandon(q: nat)
    | DrawId(q: nat, first: int, waited: int)
    | BuildLink(q: nat)
    | InsertRow(q: nat, fault: Fault)
    | Probe(q: nat, fails: bool)
    | FetchRow(q: nat, fails: bool)
    | CheckExpiry(q: nat)
    | ComputeTtl(q: nat)
    | WarmCache(q: nat, fault: Fault)
    | PublishClick(q: nat, first: int, waited: int)

  function Start(cacheTTL: int, now: int): State {
    State(0, now, cacheTTL, 0, map[], [], map[], map[], map[], 0, map[], [])
  }

  // ---------- steps ----------

  /** Clock readings that issue an ID are in the 41-bit window and after the
      previous lives; nothing is asked of readings that fail. */
  predicate CanDraw(s: State, w: int, first: int, waited: int) {
    w in s.lives
    && (var life := s.lives[w];
        && Legal(life.gen, first, waited)
        && (NextOutcome(life.gen, first, waited).Issued? ==>
              var ms := NextGen(life.gen, first, waited).lastMs;
              InWindow(ms) && ms > life.floor))
  }

  function Move(s: State, q: nat, t: Task): State
    requires q in s.jobs
  {
    s.(jobs := s.jobs[q := s.jobs[q].(task := t)])
  }

  function Finish(s: State, q: nat): State {
    s.(jobs := s.jobs - {q})
  }

  function Submit(s: State, w: int, t: Task): State {
    s.(jobs := s.jobs[s.nextJob := Job(w, t)], nextJob := s.nextJob + 1)
  }

  /** The answer of a Resolve that began and was decided at these steps. */
  function Answer(s: State, q: nat, code: string, began: nat, decided: nat, a: Result<Resolved, Error>): State
    requires q in s.jobs
  {
    var s' := s.(replies := s.replies[q := Reply(code, began, decided, s.steps, a)]);
    match a
    case Ok(res) => Move(s', q, Redirected(code, res))
    case Err(_) => Finish(s', q)
  }

  /** Drawing an ID from the instance's generator for request q. */
  function Take(s: State, q: nat, use: Use, first: int, waited: int): State
    requires q in s.jobs && CanDraw(s, s.jobs[q].worker, first, waited)
    requires NextOutcome(s.lives[s.jobs[q].worker].gen, first, waited).Issued?
  {
    var w := s.jobs[q].worker;
    var g := NextGen(s.lives[w].gen, first, waited);
    s.(lives := s.lives[w := s.lives[w].(gen := g)],
       drawn := s.drawn + [Draw(Pack(g.lastMs, g.worker, g.sequence), w, g.lastMs, g.sequence, q, use)])
  }

  function Max(a: int, b: int): int {
    if a < b then b else a
  }

  /** The cache write of request q with a TTL computed at time `at`. */
  function Warm(s: State, code: string, l: Link, ttl: int, at: int, fault: Fault): State {
    s.(cache := CacheSet(s.cache, code, ResolvedOf(l), ttl, s.now, fault),
       lag := if ttl <= 0 || fault.Refused? then s.lag else Max(s.lag, s.now - at))
  }

  function LastMs(life: Life): int {
    if life.gen.lastMs == 0 then life.floor else life.gen.lastMs
  }

  // ---------- the steps of one request ----------

  /** Create: draw an ID, or fail on a clock that went back. */
  function DrawStep(s: State, q: nat, first: int, waited: int): State
    requires q in s.jobs && s.jobs[q].task.Requested? && CanDraw(s, s.jobs[q].worker, first, waited)
  {
    var t := s.jobs[q].task;
    match NextOutcome(s.lives[s.jobs[q].worker].gen, first, waited)
    case Issued(id) => Move(Take(s, q, ForLink, first, waited), q, Numbered(t.userID, t.url, t.expiresAt, id))
    case ClockBackwards(_) => Finish(s, q)
  }

  function BuildStep(s: State, q: nat): State
    requires q in s.jobs && s.jobs[q].task.Numbered?
  {
    var t := s.jobs[q].task;
    Move(s, q, Built(NewLink(t.id, t.url, t.userID, s.now, t.expiresAt)))
  }

  function InsertStep(s: State, q: nat, fault: Fault): State
    requires q in s.jobs && s.jobs[q].task.Built?
  {
    var l := s.jobs[q].task.link;
    var s' := s.(rows := Insert(s.rows, l, fault));
    if InsertResult(s.rows, l, fault).Ok? then Move(s', q, Saved(l)) else Finish(s', q)
  }

  /** Resolve: the cache, then the table, then the expiry check. */
  function ProbeStep(s: State, q: nat, fails: bool): State
    requires q in s.jobs && s.jobs[q].task.Probing?
  {
    var t := s.jobs[q].task;
    match if fails then None else CacheGet(s.cache, t.code, s.now)
    case Some(res) => Answer(s, q, t.code, t.began, s.steps, Ok(res))
    case None => Move(s, q, Missed(t.code, t.began))
  }

  function FetchStep(s: State, q: nat, fails: bool): State
    requires q in s.jobs && s.jobs[q].task.Missed?
  {
    var t := s.jobs[q].task;
    match if fails then Err(Database) else Lookup(s.rows, t.code)
    case Ok(row) => Move(s, q, Fetched(t.code, t.began, row))
    case Err(err) => Answer(s, q, t.code, t.began, s.steps, Err(err))
  }

  function CheckStep(s: State, q: nat): State
    requires q in s.jobs && s.jobs[q].task.Fetched?
  {
    var t := s.jobs[q].task;
    if IsExpired(t.row, s.now) then Answer(s, q, t.code, t.began, s.steps, Err(Expired))
    else Move(s, q, Checked(t.code, t.began, t.row, s.steps))
  }

  /** Both: compute the TTL at one step, write the entry at a later one. */
  function TimeStep(s: State, q: nat): State
    requires q in s.jobs && (s.jobs[q].task.Saved? || s.jobs[q].task.Checked?)
  {
    var t := s.jobs[q].task;
    if t.Saved? then Move(s, q, SavedTimed(t.link, CacheTtlFor(t.link, s.cacheTTL, s.now), s.now))
    else Move(s, q, CheckedTimed(t.code, t.began, t.row, t.decided, CacheTtlFor(t.row, s.cacheTTL, s.now), s.now))
  }

  function WarmStep(s: State, q: nat, fault: Fault): State
    requires q in s.jobs && (s.jobs[q].task.SavedTimed? || s.jobs[q].task.CheckedTimed?)
  {
    var t := s.jobs[q].task;
    if t.SavedTimed? then Finish(Warm(s, t.link.shortCode, t.link, t.ttl, t.at, fault), q)
    else Answer(Warm(s, t.code, t.row, t.ttl, t.at, fault), q, t.code, t.began, t.decided, Ok(ResolvedOf(t.row)))
  }

  /** After the redirect: draw an event ID and publish, or lose the event. */
  function PublishStep(s: State, q: nat, first: int, waited: int): State
    requires q in s.jobs && s.jobs[q].task.Redirected? && CanDraw(s, s.jobs[q].worker, first, waited)
  {
    var t := s.jobs[q].task;
    match NextOutcome(s.lives[s.jobs[q].worker].gen, first, waited)
    case Issued(id) =>
      Finish(Take(s, q, ForClick, first, waited)
             .(clicks := s.clicks + [ClickEvent(id, t.res.linkID, t.code, t.res.originalURL)]), q)
    case ClockBackwards(_) => Finish(s, q)
  }

  // ---------- the environment ----------

  function BootStep(s: State, w: int): State {
    s.(lives := s.lives[w := Life(Fresh(w), EPOCH - 1)])
  }

  /** A restarted process forgets the generator's fields. */
  function RebootStep(s: State, w: int): State
    requires w in s.lives
  {
    s.(lives := s.lives[w := Life(Fresh(w), LastMs(s.lives[w]))])
  }

  predicate Enabled(s: State, e: Event) {
    match e
    case Tick(to) => to >= s.now
    case Evict(code) => code in s.cache
    case Boot(w) => 0 <= w <= MAX_WORKER_ID && w !in s.lives
    case Reboot(w) => w in s.lives
    case SubmitCreate(w, _, url, _) => w in s.lives && url != ""  // the URL has been normalized
    case SubmitRedirect(w, _) => w in s.lives
    case Abandon(q) => q in s.jobs
    case DrawId(q, first, waited) =>
      q in s.jobs && s.jobs[q].task.Requested? && CanDraw(s, s.jobs[q].worker, first, waited)
    case BuildLink(q) => q in s.jobs && s.jobs[q].task.Numbered?
    case InsertRow(q, _) => q in s.jobs && s.jobs[q].task.Built?
    case Probe(q, _) => q in s.jobs && s.jobs[q].task.Probing?
    case FetchRow(q, _) => q in s.jobs && s.jobs[q].task.Missed?
    case CheckExpiry(q) => q in s.jobs && s.jobs[q].task.Fetched?
    case ComputeTtl(q) => q in s.jobs && (s.jobs[q].task.Saved? || s.jobs[q].task.Checked?)
    case WarmCache(q, _) => q in s.jobs && (s.jobs[q].task.SavedTimed? || s.jobs[q].task.CheckedTimed?)
    case PublishClick(q, first, waited) =>
      q in s.jobs && s.jobs[q].task.Redirected? && CanDraw(s, s.jobs[q].worker, first, waited)
  }

  function Effect(s: State, e: Event): State
    requires Enabled(s, e)
  {
    match e
    case Tick(to) => s.(now := to)
    case Evict(code) => s.(cache := s.cache - {code})
    case Boot(w) => BootStep(s, w)
    case Reboot(w) => RebootStep(s, w)
    case SubmitCreate(w, user, url, exp) => Submit(s, w, Requested(user, url, exp))
    case SubmitRedirect(w, code) => Submit(s, w, Probing(code, s.steps))
    case Abandon(q) => Finish(s, q)
    case DrawId(q, first, waited) => DrawStep(s, q, first, waited)
    case BuildLink(q) => BuildStep(s, q)
    case InsertRow(q, fault) => InsertStep(s, q, fault)
    case Probe(q, fails) => ProbeStep(s, q, fails)
    case FetchRow(q, fails) => FetchStep(s, q, fails)
    case CheckExpiry(q) => CheckStep(s, q)
    case ComputeTtl(q) => TimeStep(s, q)
    case WarmCache(q, fault) => WarmStep(s, q, fault)
    case PublishClick(q, first, waited) => PublishStep(s, q, first, waited)
  }

  function Apply(s: State, e: Event): State
    requires Enabled(s, e)
  {
    Effect(s, e).(steps := s.steps + 1)
  }

  // ---------- behaviours ----------

  datatype Config = Config(cacheTTL: int, now: int)

  /** A finite history: state i is the one before event i. */
  datatype Trace = Trace(events: seq<Event>, states: seq<State>)

  predicate StepAt(t: Trace, i: nat) {
    && i < |t.events| && i + 1 < |t.states|
    && Enabled(t.states[i], t.events[i]) && t.states[i + 1] == Apply(t.states[i], t.events[i])
  }

  predicate Behaviour(cfg: Config, t: Trace) {
    && |t.states| == |t.events| + 1
    && t.states[0] == Start(cfg.cacheTTL, cfg.now)
    && forall i: nat :: i < |t.events| ==> StepAt(t, i)
  }
}
