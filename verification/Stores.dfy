/** The two stores: internal/cache/redis.go as a map with deadlines, and the links
    table of internal/repository/postgres.go with its two unique keys. */
module Stores {
  import opened Wrappers
  import opened Links
  import opened Listing

  /** How a call to a store can go wrong: refused, or done but reported as failed. */
  datatype Fault = Healthy | Refused | Lost

  // ---------- cache ----------

  datatype Entry = Entry(res: Resolved, deadline: int)

  type Cache = map<string, Entry>

  predicate Usable(res: Resolved) {
    res.linkID != 0 && res.originalURL != ""
  }

  /** A hit needs a live entry with a non-zero ID and a non-empty URL. */
  function CacheGet(cache: Cache, code: string, now: int): Option<Resolved> {
    if code in cache && now <= cache[code].deadline && Usable(cache[code].res)
    then Some(cache[code].res)
    else None
  }

  /** A non-positive TTL writes nothing. */
  function CacheSet(cache: Cache, code: string, res: Resolved, ttl: int, now: int, fault: Fault): Cache {
    if ttl <= 0 || fault.Refused? then cache else cache[code := Entry(res, now + ttl)]
  }

  class Redis {
    var entries: Cache

    constructor ()
      ensures entries == map[]
    {
      entries := map[];
    }

    method Get(code: string, now: int, fails: bool) returns (r: Result<Option<Resolved>, Error>)
      ensures r == if fails then Err(Database) else Ok(CacheGet(entries, code, now))
      ensures r.Err? <==> fails
      ensures r.Ok? && r.value.Some? ==> r.value.value.linkID != 0 && r.value.value.originalURL != ""
      ensures r.Ok? ==>
                (r.value.Some? <==> code in entries && now <= entries[code].deadline
                                    && entries[code].res.linkID != 0 && entries[code].res.originalURL != "")
      ensures r.Ok? && r.value.Some? ==> r.value.value == entries[code].res
    {
      if fails {
        return Err(Database);
      }
      if code !in entries || now > entries[code].deadline {
        return Ok(None);
      }
      var res := entries[code].res;
      if res.linkID == 0 || res.originalURL == "" {
        return Ok(None);
      }
      return Ok(Some(res));
    }

    /** A later Get sees the value until the deadline; other codes are untouched. */
    method Set(code: string, res: Resolved, ttl: int, now: int, fault: Fault) returns (ok: bool)
      modifies this
      ensures entries == CacheSet(old(entries), code, res, ttl, now, fault)
      ensures ok <==> ttl <= 0 || fault.Healthy?
      ensures entries == if ttl <= 0 || fault.Refused? then old(entries)
                         else old(entries)[code := Entry(res, now + ttl)]
      ensures forall c, t :: c != code ==> CacheGet(entries, c, t) == CacheGet(old(entries), c, t)
      ensures ok && ttl > 0 && Usable(res) ==>
                forall t :: CacheGet(entries, code, t) == if t <= now + ttl then Some(res) else None
    {
      if ttl <= 0 {
        return true;
      }
      if !fault.Refused? {
        entries := entries[code := Entry(res, now + ttl)];
      }
      return fault.Healthy?;
    }
  }

  // ---------- table ----------

  /** Rows by short code. */
  type Table = map<string, Link>

  predicate ValidTable(rows: Table) {
    && (forall c :: c in rows ==> rows[c].shortCode == c)
    && (forall c, d :: c in rows && d in rows && rows[c].id == rows[d].id ==> c == d)
  }

  function RowsOf(rows: Table, userID: string): set<Link> {
    set c | c in rows && rows[c].userID == userID :: rows[c]
  }

  /** Would inserting l violate the primary key or the unique index? */
  predicate Conflicts(rows: Table, l: Link) {
    l.shortCode in rows || exists c :: c in rows && rows[c].id == l.id
  }

  function Insert(rows: Table, l: Link, fault: Fault): Table {
    if Conflicts(rows, l) || fault.Refused? then rows else rows[l.shortCode := l]
  }

  function InsertResult(rows: Table, l: Link, fault: Fault): Result<(), Error> {
    if fault.Refused? then Err(Database)
    else if Conflicts(rows, l) then Err(UniqueViolation(l.shortCode))
    else if fault.Lost? then Err(Database)
    else Ok(())
  }

  function Lookup(rows: Table, code: string): Result<Link, Error> {
    if code in rows then Ok(rows[code]) else Err(NotFound)
  }

  lemma InsertKeepsTable(rows: Table, l: Link, fault: Fault)
    requires ValidTable(rows)
    ensures ValidTable(Insert(rows, l, fault))
    ensures forall c :: c in rows ==> c in Insert(rows, l, fault) && Insert(rows, l, fault)[c] == rows[c]
    ensures Lookup(Insert(rows, l, fault), l.shortCode) == Ok(l)
       <==> !(Conflicts(rows, l) || fault.Refused?) || Lookup(rows, l.shortCode) == Ok(l)
  {
  }

  /** A page being filled: rows skipped, rows taken, rows still to come. */
  predicate Filling(all: seq<Link>, skipped: nat, links: seq<Link>, rest: seq<Link>, limit: nat, offset: nat) {
    && skipped <= |all| && all == all[..skipped] + links + rest
    && skipped <= offset && (skipped < offset ==> links == []) && |links| <= limit
  }

  lemma FillStart(all: seq<Link>, limit: nat, offset: nat)
    ensures Filling(all, 0, [], all, limit, offset)
  {
    assert all == all[..0] + [] + all;
  }

  lemma FillBound(all: seq<Link>, skipped: nat, links: seq<Link>, rest: seq<Link>, limit: nat, offset: nat)
    requires Filling(all, skipped, links, rest, limit, offset)
    ensures |links| <= limit
  {
  }

  lemma RowsUnique(rows: Table, userID: string)
    requires ValidTable(rows)
    ensures UniqueIds(RowsOf(rows, userID))
  {
  }

  /** A page of the user's rows holds rows of this user only, all of them if it is long
      enough, and a row of this user exactly when the number of newer ones says so. */
  lemma UserPage(rows: Table, userID: string, limit: nat, offset: nat)
    requires ValidTable(rows)
    ensures UniqueIds(RowsOf(rows, userID))
    ensures var page := Slice(Sorted(RowsOf(rows, userID)), limit, offset);
            var n := |set c | c in rows && rows[c].userID == userID :: rows[c]|;
            && |page| == (if offset >= n then 0 else if n - offset < limit then n - offset else limit)
            && (forall l :: l in page ==> l.userID == userID && l.shortCode in rows && rows[l.shortCode] == l)
            && (offset == 0 && limit >= n ==> forall c :: c in rows && rows[c].userID == userID ==> rows[c] in page)
            && (forall i, j :: 0 <= i < j < |page| ==>
                  page[i].createdAt > page[j].createdAt
                  || (page[i].createdAt == page[j].createdAt && page[i].id > page[j].id))
  {
    hide Sorted, Slice;
    RowsUnique(rows, userID);
    var s := RowsOf(rows, userID);
    PageShape(s, limit, offset);
    assert s == set c | c in rows && rows[c].userID == userID :: rows[c];
    assert forall c :: c in rows && rows[c].userID == userID ==> rows[c] in s;
  }

  /** Where a user's row is listed: on the page that starts at `offset` exactly when
      that many rows of the user, but fewer than `limit` more, are newer. */
  lemma UserRowListedIff(rows: Table, userID: string, limit: nat, offset: nat, code: string)
    requires ValidTable(rows) && code in rows && rows[code].userID == userID
    ensures UniqueIds(RowsOf(rows, userID))
    ensures var l := rows[code];
            var newer := set c | c in rows && rows[c].userID == userID
                                 && (rows[c].createdAt > l.createdAt
                                     || (rows[c].createdAt == l.createdAt && rows[c].id > l.id)) :: rows[c];
            l in Slice(Sorted(RowsOf(rows, userID)), limit, offset) <==> offset <= |newer| < offset + limit
  {
    hide Sorted, Slice;
    RowsUnique(rows, userID);
    var s, l := RowsOf(rows, userID), rows[code];
    OnPageIff(s, limit, offset, l);
    assert (set x | x in s && Newer(x, l))
        == set c | c in rows && rows[c].userID == userID
                   && (rows[c].createdAt > l.createdAt
                       || (rows[c].createdAt == l.createdAt && rows[c].id > l.id)) :: rows[c];
    assert l in s;
  }

  /** The pages of one user, read to the end, hold exactly the rows of this user, each
      once and newest first. */
  lemma UserPages(rows: Table, userID: string, limit: int, n: nat)
    requires ValidTable(rows) && n * PageSize(limit) >= |RowsOf(rows, userID)|
    ensures UniqueIds(RowsOf(rows, userID))
    ensures var all := Pages(RowsOf(rows, userID), limit, n);
            && (forall l :: l in all <==> l.shortCode in rows && rows[l.shortCode] == l && l.userID == userID)
            && (forall i, j :: 0 <= i < j < |all| ==>
                  all[i].createdAt > all[j].createdAt
                  || (all[i].createdAt == all[j].createdAt && all[i].id > all[j].id))
  {
    hide Sorted, Pages, PageSize;
    RowsUnique(rows, userID);
    PagesPartition(RowsOf(rows, userID), limit, n);
    assert forall c :: c in rows && rows[c].userID == userID ==> rows[c] in RowsOf(rows, userID);
  }

  lemma FillStep(all: seq<Link>, skipped: nat, links: seq<Link>, m: Link, rest: seq<Link>, limit: nat, offset: nat)
    requires Filling(all, skipped, links, [m] + rest, limit, offset) && |links| < limit
    ensures if skipped < offset then Filling(all, skipped + 1, links, rest, limit, offset)
            else Filling(all, skipped, links + [m], rest, limit, offset)
  {
    if skipped < offset {
      assert all[skipped] == m;
      assert all[..skipped + 1] == all[..skipped] + [m];
    } else {
      assert links + ([m] + rest) == (links + [m]) + rest;
      assert all[..skipped] + links + ([m] + rest) == all[..skipped] + (links + [m]) + rest;
    }
  }

  lemma PageFilled(all: seq<Link>, skipped: nat, links: seq<Link>, rest: seq<Link>, limit: nat, offset: nat)
    requires Filling(all, skipped, links, rest, limit, offset)
    requires rest == [] || |links| == limit
    ensures links == Slice(all, limit, offset)
  {
  }

  class Postgres {
    var rows: Table

    ghost predicate Valid()
      reads this
    {
      ValidTable(rows)
    }

    constructor ()
      ensures Valid() && rows == map[]
    {
      rows := map[];
    }

    /** Rows are only ever added. A lost reply leaves the row in the table. */
    method Create(l: Link, fault: Fault) returns (r: Result<(), Error>)
      requires Valid()
      modifies this
      ensures Valid() && rows == Insert(old(rows), l, fault)
      ensures r == InsertResult(old(rows), l, fault)
      ensures var clash := l.shortCode in old(rows) || exists c :: c in old(rows) && old(rows)[c].id == l.id;
              && rows == (if clash || fault.Refused? then old(rows) else old(rows)[l.shortCode := l])
              && (r.Ok? <==> !clash && fault.Healthy?)
              && (r == Err(UniqueViolation(l.shortCode)) <==> clash && !fault.Refused?)
              && (r.Err? ==> r.error == Database || r.error == UniqueViolation(l.shortCode))
    {
      InsertKeepsTable(rows, l, fault);
      if fault.Refused? {
        return Err(Database);
      }
      if l.shortCode in rows || exists c :: c in rows && rows[c].id == l.id {
        return Err(UniqueViolation(l.shortCode));
      }
      rows := rows[l.shortCode := l];
      return if fault.Healthy? then Ok(()) else Err(Database);
    }

    method GetByShortCode(code: string, fails: bool) returns (r: Result<Link, Error>)
      ensures r == if fails then Err(Database) else Lookup(rows, code)
      ensures r.Ok? <==> !fails && code in rows
      ensures r.Ok? ==> r.value == rows[code]
      ensures r.Err? ==> r.error == if fails then Database else NotFound
    {
      if fails {
        return Err(Database);
      }
      if code !in rows {
        return Err(NotFound);
      }
      return Ok(rows[code]);
    }

    /** The user's rows, newest first, `limit` of them after the first `offset`. The
        query picks the newest remaining row until the page is full. */
    method ListByUser(userID: string, limit: nat, offset: nat, fails: bool) returns (r: Result<seq<Link>, Error>)
      requires Valid()
      ensures UniqueIds(RowsOf(rows, userID))
      ensures r == if fails then Err(Database) else Ok(Slice(Sorted(RowsOf(rows, userID)), limit, offset))
      ensures r.Ok? ==> forall l :: l in r.value ==>
                l.userID == userID && l.shortCode in rows && rows[l.shortCode] == l
      ensures r.Ok? && offset == 0 && limit >= |set c | c in rows && rows[c].userID == userID :: rows[c]| ==>
                forall c :: c in rows && rows[c].userID == userID ==> rows[c] in r.value
      ensures r.Ok? ==> forall i, j :: 0 <= i < j < |r.value| ==>
                r.value[i].createdAt > r.value[j].createdAt
                || (r.value[i].createdAt == r.value[j].createdAt && r.value[i].id > r.value[j].id)
    {
      hide Sorted, Filling, Slice, ValidTable;
      var rest := RowsOf(rows, userID);
      assert UniqueIds(rest) by { RowsUnique(rows, userID); }
      if fails {
        return Err(Database);
      }
      ghost var all := Sorted(rest);
      var skipped, links := 0, [];
      FillStart(all, limit, offset);
      while rest != {} && |links| < limit
        invariant UniqueIds(rest)
        invariant Filling(all, skipped, links, Sorted(rest), limit, offset)
        decreases |rest|
      {
        NewestExists(rest);
        var m :| IsNewest(m, rest);
        TakeNewest(rest, m);
        FillStep(all, skipped, links, m, Sorted(rest - {m}), limit, offset);
        rest := rest - {m};
        if skipped < offset {
          skipped := skipped + 1;
        } else {
          links := links + [m];
        }
      }
      SortedExact(rest);
      FillBound(all, skipped, links, Sorted(rest), limit, offset);
      PageFilled(all, skipped, links, Sorted(rest), limit, offset);
      UserPage(rows, userID, limit, offset);
      return Ok(links);
    }
  }
}
