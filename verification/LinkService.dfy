/** Create and Resolve as one caller sees them: internal/link/service.go. */
module LinkService {
  import opened Wrappers
  import opened Links
  import opened Stores
  import opened Snowflake
  import opened Listing
  import Base62

  /** The times a call reads and the faults it meets, in the order of the source. */
  datatype CreateIO = CreateIO(createdAt: int, insert: Fault, ttlAt: int, setAt: int, warm: Fault)

  datatype ResolveIO = ResolveIO(
    getAt: int, getFails: bool, lookupFails: bool, checkAt: int, ttlAt: int, setAt: int, warm: Fault)

  /** What the table alone answers at one instant. */
  function Uncached(rows: Table, code: string, now: int): Result<Resolved, Error> {
    match Lookup(rows, code)
    case Err(e) => Err(e)
    case Ok(l) => if IsExpired(l, now) then Err(Expired) else Ok(ResolvedOf(l))
  }

  function CacheHit(cache: Cache, code: string, io: ResolveIO): Option<Resolved> {
    if io.getFails then None else CacheGet(cache, code, io.getAt)
  }

  function ResolveAnswer(rows: Table, cache: Cache, code: string, io: ResolveIO): Result<Resolved, Error> {
    match CacheHit(cache, code, io)
    case Some(res) => Ok(res)
    case None => if io.lookupFails then Err(Database) else Uncached(rows, code, io.checkAt)
  }

  /** A miss that finds a working link fills the cache; nothing else writes it. */
  function ResolveCache(rows: Table, cache: Cache, code: string, cacheTTL: int, io: ResolveIO): Cache {
    if CacheHit(cache, code, io).None? && ResolveAnswer(rows, cache, code, io).Ok?
    then CacheSet(cache, code, ResolvedOf(rows[code]), CacheTtlFor(rows[code], cacheTTL, io.ttlAt), io.setAt, io.warm)
    else cache
  }

  /** The link Create builds around a drawn ID. */
  function NewLink(id: int, url: string, userID: string, createdAt: int, expiresAt: Option<int>): Link {
    Link(id, Base62.Code(id), url, userID, createdAt, expiresAt)
  }

  /** What Create returns, given the drawn ID and the table. */
  function CreateResult(rows: Table, userID: string, url: Option<string>, expiresAt: Option<int>,
                        drawn: Outcome, io: CreateIO): Result<Link, Error>
  {
    if url.None? then Err(InvalidURL)
    else if drawn.ClockBackwards? then Err(IdGeneration(drawn.byMs))
    else
      var l := NewLink(drawn.id, url.value, userID, io.createdAt, expiresAt);
      match InsertResult(rows, l, io.insert)
      case Err(e) => Err(e)
      case Ok(_) => Ok(l)
  }

  function CreateRows(rows: Table, userID: string, url: Option<string>, expiresAt: Option<int>,
                      drawn: Outcome, io: CreateIO): Table
  {
    if url.None? || drawn.ClockBackwards? then rows
    else Insert(rows, NewLink(drawn.id, url.value, userID, io.createdAt, expiresAt), io.insert)
  }

  /** Only a link that was made is written to the cache. */
  function CreateCache(cache: Cache, made: Result<Link, Error>, cacheTTL: int, io: CreateIO): Cache {
    match made
    case Err(_) => cache
    case Ok(l) =>
      CacheSet(cache, l.shortCode, ResolvedOf(l), CacheTtlFor(l, cacheTTL, io.ttlAt), io.setAt, io.warm)
  }

  /** A link just created is among its owner's pages, and first on the first page if
      the owner's other links are older. */
  lemma CreatedIsListed(rows: Table, userID: string, url: Option<string>, expiresAt: Option<int>,
                        drawn: Outcome, io: CreateIO, limit: int, n: nat)
    requires ValidTable(rows) && CreateResult(rows, userID, url, expiresAt, drawn, io).Ok?
    requires n * PageSize(limit) >= |RowsOf(CreateRows(rows, userID, url, expiresAt, drawn, io), userID)|
    ensures var l := CreateResult(rows, userID, url, expiresAt, drawn, io).value;
            var rows' := CreateRows(rows, userID, url, expiresAt, drawn, io);
            && UniqueIds(RowsOf(rows', userID)) && l in Pages(RowsOf(rows', userID), limit, n)
            && ((forall c :: c in rows && rows[c].userID == userID ==> rows[c].createdAt < io.createdAt) ==>
                  |Page(RowsOf(rows', userID), limit, 0)| > 0 && Page(RowsOf(rows', userID), limit, 0)[0] == l)
  {
    hide Sorted, Pages, Slice, Base62.Code, Conflicts;
    var l := CreateResult(rows, userID, url, expiresAt, drawn, io).value;
    var rows' := CreateRows(rows, userID, url, expiresAt, drawn, io);
    InsertKeepsTable(rows, l, io.insert);
    UserPages(rows', userID, limit, n);
    if forall c :: c in rows && rows[c].userID == userID ==> rows[c].createdAt < io.createdAt {
      NewestFirst(rows', userID, PageSize(limit), l);
    }
  }

  lemma NewestFirst(rows: Table, userID: string, limit: nat, l: Link)
    requires ValidTable(rows) && limit > 0
    requires l.shortCode in rows && rows[l.shortCode] == l && l.userID == userID
    requires forall c :: c in rows && rows[c].userID == userID && rows[c] != l ==> rows[c].createdAt < l.createdAt
    ensures UniqueIds(RowsOf(rows, userID))
    ensures var page := Slice(Sorted(RowsOf(rows, userID)), limit, 0);
            |page| > 0 && page[0] == l
  {
    hide Sorted, Slice;
    UserRowListedIff(rows, userID, limit, 0, l.shortCode);
    UserPage(rows, userID, limit, 0);
    var newer := set c | c in rows && rows[c].userID == userID
                         && (rows[c].createdAt > l.createdAt
                             || (rows[c].createdAt == l.createdAt && rows[c].id > l.id)) :: rows[c];
    assert newer == {};
    var page := Slice(Sorted(RowsOf(rows, userID)), limit, 0);
    assert l in page;
    assert page[0] == l;
  }

  class Service {
    const repo: Postgres
    const cache: Redis
    const ids: Generator
    const cacheTTL: int
    const normalize: string -> Option<string>  // NormalizeAndValidateURL, left abstract

    constructor (repo: Postgres, cache: Redis, ids: Generator, cacheTTL: int, normalize: string -> Option<string>)
      ensures this.repo == repo && this.cache == cache && this.ids == ids
      ensures this.cacheTTL == cacheTTL && this.normalize == normalize
    {
      this.repo, this.cache, this.ids := repo, cache, ids;
      this.cacheTTL, this.normalize := cacheTTL, normalize;
    }

    ghost predicate Valid()
      reads this, repo, ids
    {
      repo.Valid() && ids.Valid()
    }

    /** TTL of a cache entry: the plain TTL, cut to the time left until expiry. */
    method CacheTTLFor(l: Link, now: int) returns (ttl: int)
      ensures ttl == CacheTtlFor(l, cacheTTL, now)
      ensures ttl <= cacheTTL
      ensures l.expiresAt.None? ==> ttl == cacheTTL
      ensures l.expiresAt.Some? && l.expiresAt.value - now > MAX_DURATION >= cacheTTL ==> ttl == cacheTTL
      ensures l.expiresAt.Some? && -MAX_DURATION - 1 <= l.expiresAt.value - now <= MAX_DURATION ==>
                now + ttl <= l.expiresAt.value && (ttl == cacheTTL || now + ttl == l.expiresAt.value)
      ensures l.expiresAt.Some? && l.expiresAt.value <= now ==> ttl <= 0
    {
      ttl := cacheTTL;
      if l.expiresAt.Some? {
        var remaining := Sub(l.expiresAt.value, now);
        if remaining < ttl {
          ttl := remaining;
        }
      }
    }

    /** An ID is drawn only for a valid URL, the row is written only with a drawn
        ID, and the cache is warmed only after the row is there. */
    method Create(userID: string, rawURL: string, expiresAt: Option<int>, io: CreateIO)
      returns (r: Result<Link, Error>)
      requires Valid() && (normalize(rawURL).Some? ==> ids.CanReturn())
      modifies repo, cache, ids, ids.clock
      ensures Valid()
      ensures normalize(rawURL).None? ==>
                r == Err(InvalidURL) && unchanged(repo, cache, ids, ids.clock)
      ensures normalize(rawURL).Some? ==> ids.Stepped(old(ids.State()), old(ids.clock.pos))
      ensures var drawn := ids.Drawn(old(ids.State()), old(ids.clock.pos));
              && r == CreateResult(old(repo.rows), userID, normalize(rawURL), expiresAt, drawn, io)
              && repo.rows == CreateRows(old(repo.rows), userID, normalize(rawURL), expiresAt, drawn, io)
              && cache.entries == CreateCache(old(cache.entries), r, cacheTTL, io)
              && (normalize(rawURL).Some? && drawn.ClockBackwards? ==>
                    && r == Err(IdGeneration(drawn.byMs))
                    && repo.rows == old(repo.rows) && ids.State() == old(ids.State()))
              && (r.Ok? ==> normalize(rawURL).Some? && drawn == Issued(r.value.id))
      ensures r.Ok? ==>
                && r.value.shortCode == Base62.Code(r.value.id) && r.value.originalURL == normalize(rawURL).value
                && r.value.userID == userID && r.value.createdAt == io.createdAt && r.value.expiresAt == expiresAt
                && r.value.shortCode !in old(repo.rows)
                && repo.rows == old(repo.rows)[r.value.shortCode := r.value]
                && (var ttl := CacheTtlFor(r.value, cacheTTL, io.ttlAt);
                    cache.entries
                    == if ttl <= 0 || io.warm.Refused? then old(cache.entries)
                       else old(cache.entries)[
                              r.value.shortCode := Entry(Resolved(r.value.id, r.value.originalURL), io.setAt + ttl)])
      ensures r.Err? ==> cache.entries == old(cache.entries)
    {
      hide Pack, Decompose, NextGen, Base62.Code, CacheTtlFor, Conflicts, CacheGet;
      var normalized := normalize(rawURL);
      if normalized.None? {
        return Err(InvalidURL);
      }
      var drawn := ids.Next();
      if drawn.ClockBackwards? {
        return Err(IdGeneration(drawn.byMs));
      }
      var code := Base62.Encode(drawn.id);
      var l := Link(drawn.id, code, normalized.value, userID, io.createdAt, expiresAt);
      var saved := repo.Create(l, io.insert);
      if saved.Err? {
        return Err(saved.error);
      }
      var ttl := CacheTTLFor(l, io.ttlAt);
      var _ := cache.Set(l.shortCode, Resolved(l.id, l.originalURL), ttl, io.setAt, io.warm);
      return Ok(l);
    }

    /** Cache first, then the table; a cache failure only costs the shortcut. */
    method Resolve(code: string, io: ResolveIO) returns (r: Result<Resolved, Error>)
      modifies cache
      ensures r == ResolveAnswer(repo.rows, old(cache.entries), code, io)
      ensures cache.entries == ResolveCache(repo.rows, old(cache.entries), code, cacheTTL, io)
      ensures var hit := !io.getFails && code in old(cache.entries)
                         && io.getAt <= old(cache.entries)[code].deadline
                         && old(cache.entries)[code].res.linkID != 0 && old(cache.entries)[code].res.originalURL != "";
              if hit then r == Ok(old(cache.entries)[code].res) && cache.entries == old(cache.entries)
              else if io.lookupFails then r == Err(Database) && cache.entries == old(cache.entries)
              else if code !in repo.rows then r == Err(NotFound) && cache.entries == old(cache.entries)
              else
                var l := repo.rows[code];
                if l.expiresAt.Some? && io.checkAt > l.expiresAt.value then
                  r == Err(Expired) && cache.entries == old(cache.entries)
                else
                  var ttl := CacheTtlFor(l, cacheTTL, io.ttlAt);
                  && r == Ok(Resolved(l.id, l.originalURL))
                  && cache.entries
                     == if ttl <= 0 || io.warm.Refused? then old(cache.entries)
                        else old(cache.entries)[code := Entry(Resolved(l.id, l.originalURL), io.setAt + ttl)]
    {
      var got := cache.Get(code, io.getAt, io.getFails);
      if got.Ok? && got.value.Some? {
        return Ok(got.value.value);
      }
      var found := repo.GetByShortCode(code, io.lookupFails);
      if found.Err? {
        return Err(found.error);
      }
      var l := found.value;
      if IsExpired(l, io.checkAt) {
        return Err(Expired);
      }
      var res := Resolved(l.id, l.originalURL);
      var ttl := CacheTTLFor(l, io.ttlAt);
      var _ := cache.Set(code, res, ttl, io.setAt, io.warm);
      return Ok(res);
    }

    /** Limits from 1 to 100 are kept, all others mean 20; a negative offset means 0. */
    method ListByUser(userID: string, limit: int, offset: int, fails: bool) returns (r: Result<seq<Link>, Error>)
      requires Valid()
      ensures UniqueIds(RowsOf(repo.rows, userID))
      ensures r == if fails then Err(Database) else Ok(Page(RowsOf(repo.rows, userID), limit, offset))
      ensures r.Ok? ==>
                var size := if 1 <= limit <= 100 then limit else 20;
                var left := |set c | c in repo.rows && repo.rows[c].userID == userID :: repo.rows[c]|
                            - (if offset < 0 then 0 else offset);
                && |r.value| == (if left < 0 then 0 else if left < size then left else size)
                && (forall l :: l in r.value ==>
                      l.userID == userID && l.shortCode in repo.rows && repo.rows[l.shortCode] == l)
                && (left <= size && offset <= 0 ==>
                      forall c :: c in repo.rows && repo.rows[c].userID == userID ==> repo.rows[c] in r.value)
                && (forall i, j :: 0 <= i < j < |r.value| ==>
                      r.value[i].createdAt > r.value[j].createdAt
                      || (r.value[i].createdAt == r.value[j].createdAt && r.value[i].id > r.value[j].id))
    {
      var size, from := limit, offset;
      if size <= 0 || size > 100 {
        size := 20;
      }
      if from < 0 {
        from := 0;
      }
      r := repo.ListByUser(userID, size, from, fails);
      UserPage(repo.rows, userID, size, from);
    }
  }
}
