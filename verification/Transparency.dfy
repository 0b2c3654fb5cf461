/** The cache-aside service against the table alone: cache faults and evictions
    do not show in any answer when each operation sees a single instant. */
module Transparency {
  import opened Wrappers
  import opened Links
  import opened Stores
  import opened Snowflake
  import opened LinkService
  import Base62

  datatype Store = Store(rows: Table, cache: Cache)

  /** One request; `at` is the instant at which it reads every clock. Whatever does
      not concern the cache is part of the request: the drawn ID, the insert fault. */
  datatype Op =
    | CreateOp(at: int, userID: string, url: Option<string>, expiresAt: Option<int>, drawn: Outcome, insert: Fault)
    | ResolveOp(at: int, code: string)

  /** What the cache does around one request. */
  datatype CacheFault = CacheFault(evicted: set<string>, getFails: bool, warm: Fault)

  datatype Answer = Created(link: Link) | Served(res: Resolved) | Failed(error: Error)

  /** The service's own Create, with every clock read at the same instant. */
  function CreateAt(op: Op, warm: Fault): CreateIO
    requires op.CreateOp?
  {
    CreateIO(op.at, op.insert, op.at, op.at, warm)
  }

  function Made(rows: Table, op: Op, warm: Fault): Result<Link, Error>
    requires op.CreateOp?
  {
    CreateResult(rows, op.userID, op.url, op.expiresAt, op.drawn, CreateAt(op, warm))
  }

  function RowsAfter(rows: Table, op: Op, warm: Fault): Table
    requires op.CreateOp?
  {
    CreateRows(rows, op.userID, op.url, op.expiresAt, op.drawn, CreateAt(op, warm))
  }

  function AtOnce(op: Op, f: CacheFault): ResolveIO {
    ResolveIO(op.at, f.getFails, false, op.at, op.at, op.at, f.warm)
  }

  /** The cached service: one request after the cache has lost some entries. */
  function Perform(s: Store, cacheTTL: int, op: Op, f: CacheFault): (Store, Answer) {
    var cache := map c | c in s.cache && c !in f.evicted :: s.cache[c];
    match op
    case CreateOp(_, _, _, _, _, _) =>
      var made := Made(s.rows, op, f.warm);
      (Store(RowsAfter(s.rows, op, f.warm), CreateCache(cache, made, cacheTTL, CreateAt(op, f.warm))), Reported(made))
    case ResolveOp(_, code) =>
      var r := ResolveAnswer(s.rows, cache, code, AtOnce(op, f));
      (Store(s.rows, ResolveCache(s.rows, cache, code, cacheTTL, AtOnce(op, f))), AnswerOf(r))
  }

  function Reported(made: Result<Link, Error>): Answer {
    match made
    case Ok(l) => Created(l)
    case Err(e) => Failed(e)
  }

  function AnswerOf(r: Result<Resolved, Error>): Answer {
    match r
    case Ok(res) => Served(res)
    case Err(e) => Failed(e)
  }

  /** The service without a cache. */
  function Direct(rows: Table, op: Op): (Table, Answer) {
    if op.CreateOp? then (RowsAfter(rows, op, Healthy), Reported(Made(rows, op, Healthy)))
    else (rows, AnswerOf(Uncached(rows, op.code, op.at)))
  }

  function Answers(s: Store, cacheTTL: int, ops: seq<Op>, fs: seq<CacheFault>): seq<Answer>
    requires |ops| == |fs|
    decreases |ops|
  {
    if ops == [] then []
    else
      var (s', a) := Perform(s, cacheTTL, ops[0], fs[0]);
      [a] + Answers(s', cacheTTL, ops[1..], fs[1..])
  }

  /** The table after these requests, which the cache has no part in. */
  function TableAfter(rows: Table, ops: seq<Op>): Table
    decreases |ops|
  {
    if ops == [] then rows else TableAfter(Direct(rows, ops[0]).0, ops[1..])
  }

  /** Each entry mirrors a row and is dead once the row has expired. */
  predicate Coherent(s: Store) {
    forall c :: c in s.cache ==>
      && c in s.rows
      && s.cache[c].res == ResolvedOf(s.rows[c])
      && (s.rows[c].expiresAt.Some? ==> s.cache[c].deadline <= s.rows[c].expiresAt.value)
  }

  /** One request on a coherent store: the direct answer, and coherence is kept. */
  lemma PerformIsDirect(s: Store, cacheTTL: int, op: Op, f: CacheFault)
    requires Coherent(s) && cacheTTL <= MAX_DURATION
    ensures Coherent(Perform(s, cacheTTL, op, f).0)
    ensures Perform(s, cacheTTL, op, f).0.rows == Direct(s.rows, op).0
    ensures Perform(s, cacheTTL, op, f).1 == Direct(s.rows, op).1
  {
    hide Base62.Code;
  }

  /** Every request is answered as the table alone would answer it, after the requests
      that came before. */
  lemma {:induction false} CachedIsDirect(s: Store, cacheTTL: int, ops: seq<Op>, fs: seq<CacheFault>, i: nat)
    requires Coherent(s) && cacheTTL <= MAX_DURATION && |ops| == |fs| && i < |ops|
    ensures |Answers(s, cacheTTL, ops, fs)| == |ops|
    ensures Answers(s, cacheTTL, ops, fs)[i] == Direct(TableAfter(s.rows, ops[..i]), ops[i]).1
    decreases |ops|
  {
    PerformIsDirect(s, cacheTTL, ops[0], fs[0]);
    hide Perform, Direct, Coherent;
    AnswersLength(s, cacheTTL, ops, fs);
    var s' := Perform(s, cacheTTL, ops[0], fs[0]).0;
    if i == 0 {
      assert ops[..0] == [];
    } else {
      CachedIsDirect(s', cacheTTL, ops[1..], fs[1..], i - 1);
      assert ops[..i][1..] == ops[1..][..i - 1];
    }
  }

  /** The cache is really used: entries are lost by eviction alone, and a live entry
      that was not evicted answers, whatever the table holds. */
  lemma OnlyEvictedLost(s: Store, cacheTTL: int, op: Op, f: CacheFault, c: string)
    requires c in s.cache && c !in f.evicted
    ensures var (s', a) := Perform(s, cacheTTL, op, f);
            && c in s'.cache
            && (s'.cache[c] == s.cache[c] || (op.ResolveOp? && op.code == c) || (a.Created? && a.link.shortCode == c))
            && (op.ResolveOp? && op.code == c && !f.getFails && op.at <= s.cache[c].deadline
                && s.cache[c].res.linkID != 0 && s.cache[c].res.originalURL != ""
                ==> a == Served(s.cache[c].res) && s'.cache[c] == s.cache[c])
  {
    hide Base62.Code, Conflicts, CacheTtlFor;
  }

  lemma {:induction false} AnswersLength(s: Store, cacheTTL: int, ops: seq<Op>, fs: seq<CacheFault>)
    requires |ops| == |fs|
    ensures |Answers(s, cacheTTL, ops, fs)| == |ops|
    decreases |ops|
  {
    hide Perform;
    if ops != [] {
      AnswersLength(Perform(s, cacheTTL, ops[0], fs[0]).0, cacheTTL, ops[1..], fs[1..]);
    }
  }

  /** Two runs over one table with the same requests but different caches, TTLs,
      cache faults and evictions give the same answers to every request. */
  lemma CacheTransparent(rows: Table, cache: Cache, cache': Cache, cacheTTL: int, cacheTTL': int,
                         ops: seq<Op>, fs: seq<CacheFault>, fs': seq<CacheFault>)
    requires Coherent(Store(rows, cache)) && Coherent(Store(rows, cache'))
    requires cacheTTL <= MAX_DURATION && cacheTTL' <= MAX_DURATION
    requires |ops| == |fs| == |fs'|
    ensures Answers(Store(rows, cache), cacheTTL, ops, fs) == Answers(Store(rows, cache'), cacheTTL', ops, fs')
  {
    hide Answers, Coherent;
    var a, a' := Answers(Store(rows, cache), cacheTTL, ops, fs), Answers(Store(rows, cache'), cacheTTL', ops, fs');
    AnswersLength(Store(rows, cache), cacheTTL, ops, fs);
    AnswersLength(Store(rows, cache'), cacheTTL', ops, fs');
    forall i | 0 <= i < |ops| ensures a[i] == a'[i] {
      CachedIsDirect(Store(rows, cache), cacheTTL, ops, fs, i);
      CachedIsDirect(Store(rows, cache'), cacheTTL', ops, fs', i);
    }
  }

  /** When the cache is read at one instant and the expiry checked at another, a
      Resolve differs from the table's answer exactly when it hits an entry whose
      link expires in between. */
  lemma ResolveDiffersIff(s: Store, code: string, io: ResolveIO)
    requires Coherent(s) && !io.lookupFails
    ensures ResolveAnswer(s.rows, s.cache, code, io) != Uncached(s.rows, code, io.checkAt)
       <==> CacheHit(s.cache, code, io).Some? && IsExpired(s.rows[code], io.checkAt)
    ensures CacheHit(s.cache, code, io).Some? ==> !IsExpired(s.rows[code], io.getAt)
  {
  }

  /** What the cache is for. After a healthy Create, or a Resolve that missed and found
      the link, both before the expiry time, the code is answered without the table,
      even with the table down: for the whole cache TTL or until the link expires,
      whichever is first. */
  lemma WarmCacheServes(s: Store, cacheTTL: int, op: Op, f: CacheFault, l: Link, code: string, io: ResolveIO)
    requires Coherent(s) && 0 < cacheTTL <= MAX_DURATION && f.warm.Healthy?
    requires if op.CreateOp? then Perform(s, cacheTTL, op, f).1 == Created(l) && code == l.shortCode
             else code == op.code && code in s.rows && s.rows[code] == l && CacheGet(s.cache, code, op.at).None?
    requires l.id != 0 && l.originalURL != "" && (l.expiresAt.Some? ==> op.at < l.expiresAt.value)
    requires !io.getFails && io.getAt <= op.at + cacheTTL && (l.expiresAt.Some? ==> io.getAt <= l.expiresAt.value)
    ensures var s' := Perform(s, cacheTTL, op, f).0;
            CacheHit(s'.cache, code, io) == Some(Resolved(l.id, l.originalURL))
            && ResolveAnswer(s'.rows, s'.cache, code, io) == Ok(Resolved(l.id, l.originalURL))
  {
    hide Base62.Code, Conflicts;
    var ttl := CacheTtlFor(l, cacheTTL, op.at);
    assert ttl > 0 && io.getAt <= op.at + ttl;
  }
}
