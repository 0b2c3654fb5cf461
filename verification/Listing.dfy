/** The order and the pages of a user's links: ListByUser of
    internal/repository/postgres.go and internal/link/service.go. */
module Listing {
  import opened Links

  /** ORDER BY created_at DESC, id DESC. */
  predicate Newer(a: Link, b: Link) {
    a.createdAt > b.createdAt || (a.createdAt == b.createdAt && a.id > b.id)
  }

  predicate UniqueIds(s: set<Link>) {
    forall a, b :: a in s && b in s && a.id == b.id ==> a == b
  }

  predicate IsNewest(m: Link, s: set<Link>) {
    m in s && forall x :: x in s && x != m ==> Newer(m, x)
  }

  lemma {:induction false} NewestExists(s: set<Link>)
    requires s != {} && UniqueIds(s)
    ensures exists m :: IsNewest(m, s)
    decreases s
  {
    var x :| x in s;
    var rest := s - {x};
    if rest == {} {
      assert s == {x};
      assert IsNewest(x, s);
    } else {
      NewestExists(rest);
      var m :| IsNewest(m, rest);
      assert x.id != m.id;
      if Newer(m, x) {
        assert IsNewest(m, s);
      } else {
        assert Newer(x, m);
        forall y | y in s && y != x ensures Newer(x, y) {
          assert y == m || Newer(m, y);
        }
        assert IsNewest(x, s);
      }
    }
  }

  /** The rows of s from newest to oldest. */
  ghost function Sorted(s: set<Link>): seq<Link>
    requires UniqueIds(s)
    decreases s
  {
    if s == {} then []
    else
      NewestExists(s);
      var m :| IsNewest(m, s);
      [m] + Sorted(s - {m})
  }

  predicate Descending(q: seq<Link>) {
    forall i, j :: 0 <= i < j < |q| ==> Newer(q[i], q[j])
  }

  /** The listing holds exactly the rows of s, each once, in strictly descending
      order, and no other sequence does. */
  lemma {:induction false} SortedExact(s: set<Link>)
    requires UniqueIds(s)
    ensures Descending(Sorted(s))
    ensures forall x :: x in Sorted(s) <==> x in s
    ensures |Sorted(s)| == |s|
    decreases s
  {
    if s != {} {
      var m := Sorted(s)[0];
      assert Sorted(s) == [m] + Sorted(s - {m});
      SortedExact(s - {m});
    }
  }

  lemma {:induction false} SortedUnique(s: set<Link>, q: seq<Link>)
    requires UniqueIds(s) && Descending(q) && forall x :: x in q <==> x in s
    ensures q == Sorted(s)
    decreases s
  {
    if q == [] {
      assert s == {} by { assert forall x :: x in s ==> x in q; }
    } else {
      assert q[0] in s;
      SortedExact(s);
      var m := Sorted(s)[0];
      assert m in q;
      assert q[0] in s && IsNewest(q[0], s) by {
        forall x | x in s && x != q[0] ensures Newer(q[0], x) {
          assert x in q;
        }
      }
      assert q[0] == m;
      var rest := q[1..];
      forall x ensures x in rest <==> x in s - {m} {
        if x in s - {m} {
          assert x in q;
        }
      }
      SortedUnique(s - {m}, rest);
      assert q == [q[0]] + rest;
    }
  }

  lemma NewerThan(s: set<Link>, m: Link, l: Link)
    requires IsNewest(m, s) && l in s
    ensures var newer := set x | x in s && Newer(x, l);
            if l == m then newer == {} else |newer| == |set x | x in s - {m} && Newer(x, l)| + 1
  {
    if l != m {
      assert (set x | x in s && Newer(x, l)) == (set x | x in s - {m} && Newer(x, l)) + {m};
    }
  }

  /** A row stands in the listing behind exactly the rows newer than it. */
  lemma {:induction false} RankInListing(s: set<Link>, i: nat)
    requires UniqueIds(s) && i < |Sorted(s)|
    ensures |set x | x in s && Newer(x, Sorted(s)[i])| == i
    decreases s
  {
    hide Newer, IsNewest, Descending;
    var m := FirstListed(s);
    hide Sorted;
    var l := Sorted(s)[i];
    assert l in s by { SortedExact(s); }
    NewerThan(s, m, l);
    if i > 0 {
      assert Sorted(s - {m})[i - 1] == l;
      assert l in s - {m} by { SortedExact(s - {m}); }
      RankInListing(s - {m}, i - 1);
    }
  }

  lemma FirstListed(s: set<Link>) returns (m: Link)
    requires s != {} && UniqueIds(s)
    ensures IsNewest(m, s) && Sorted(s) == [m] + Sorted(s - {m})
  {
    SortedExact(s);
    m := Sorted(s)[0];
  }

  // ---------- pages ----------

  function Min(a: int, b: int): int {
    if a < b then a else b
  }

  /** LIMIT limit OFFSET offset. */
  function Slice(q: seq<Link>, limit: nat, offset: nat): seq<Link> {
    q[Min(offset, |q|)..Min(offset + limit, |q|)]
  }

  /** Out-of-range limits, the ones above 100 included, mean the default of 20. */
  function PageSize(limit: int): (p: int)
    ensures 1 <= p <= 100
  {
    if limit <= 0 || limit > 100 then 20 else limit
  }

  function PageOffset(offset: int): nat {
    if offset < 0 then 0 else offset
  }

  /** What the service lists for a requested limit and offset. */
  ghost function Page(s: set<Link>, limit: int, offset: int): seq<Link>
    requires UniqueIds(s)
  {
    Slice(Sorted(s), PageSize(limit), PageOffset(offset))
  }

  /** The first n pages read one after another, each starting a page size later. */
  ghost function Pages(s: set<Link>, limit: int, n: nat): seq<Link>
    requires UniqueIds(s)
  {
    if n == 0 then [] else Pages(s, limit, n - 1) + Page(s, limit, (n - 1) * PageSize(limit))
  }

  lemma {:induction false} PagesArePrefix(s: set<Link>, limit: int, n: nat)
    requires UniqueIds(s)
    ensures Pages(s, limit, n) == Sorted(s)[..Min(n * PageSize(limit), |Sorted(s)|)]
  {
    if n > 0 {
      hide Sorted, Slice, PageSize;
      var p, a := PageSize(limit), (n - 1) * PageSize(limit);
      PagesArePrefix(s, limit, n - 1);
      MulStep(n, p);
      assert PageOffset(a) == a;
      SliceStep(Sorted(s), p, a);
    }
  }

  /** A row is on a page exactly when the number of newer rows says so. */
  lemma OnPageIff(s: set<Link>, limit: nat, offset: nat, l: Link)
    requires UniqueIds(s)
    ensures l in Slice(Sorted(s), limit, offset)
       <==> l in s && offset <= |set x | x in s && Newer(x, l)| < offset + limit
  {
    hide Sorted, Newer, Slice, UniqueIds;
    SortedExact(s);
    var q := Sorted(s);
    if l in q {
      var i :| 0 <= i < |q| && q[i] == l;
      RankInListing(s, i);
      forall j | 0 <= j < |q| && q[j] == l ensures j == i {
        RankInListing(s, j);
      }
      InSlice(q, limit, offset, i);
    } else {
      SliceOfListed(q, limit, offset);
    }
  }

  lemma InSlice(q: seq<Link>, limit: nat, offset: nat, i: nat)
    requires i < |q| && forall j :: 0 <= j < |q| && q[j] == q[i] ==> j == i
    ensures q[i] in Slice(q, limit, offset) <==> offset <= i < offset + limit
  {
    var page, from := Slice(q, limit, offset), Min(offset, |q|);
    assert forall k :: 0 <= k < |page| ==> page[k] == q[from + k];
    if offset <= i < offset + limit {
      assert page[i - offset] == q[i];
    }
  }

  lemma SliceOfListed(q: seq<Link>, limit: nat, offset: nat)
    ensures forall l :: l in Slice(q, limit, offset) ==> l in q
  {
  }

  /** A page is as long as the rows left after the offset allow, newest first. */
  lemma PageShape(s: set<Link>, limit: nat, offset: nat)
    requires UniqueIds(s)
    ensures var page := Slice(Sorted(s), limit, offset);
            && |page| == (if offset >= |s| then 0 else if |s| - offset < limit then |s| - offset else limit)
            && (forall i, j :: 0 <= i < j < |page| ==>
                  page[i].createdAt > page[j].createdAt
                  || (page[i].createdAt == page[j].createdAt && page[i].id > page[j].id))
            && (forall l :: l in page ==> l in s)
            && (offset == 0 && limit >= |s| ==> forall l :: l in s ==> l in page)
  {
    hide Sorted, UniqueIds;
    SortedExact(s);
    var q, page := Sorted(s), Slice(Sorted(s), limit, offset);
    var from := Min(offset, |q|);
    forall i, j | 0 <= i < j < |page| ensures Newer(page[i], page[j]) {
      assert page[i] == q[from + i] && page[j] == q[from + j];
    }
    if offset == 0 && limit >= |s| {
      assert page == q;
    }
  }

  lemma MulStep(n: nat, p: nat)
    requires n > 0
    ensures (n - 1) * p + p == n * p && (n - 1) * p >= 0
  {
  }

  lemma SliceStep(q: seq<Link>, p: nat, a: nat)
    ensures q[..Min(a, |q|)] + Slice(q, p, a) == q[..Min(a + p, |q|)]
  {
  }

  /** Taking the newest row leaves the rest of the listing. */
  lemma TakeNewest(s: set<Link>, m: Link)
    requires UniqueIds(s) && IsNewest(m, s)
    ensures Sorted(s) == [m] + Sorted(s - {m})
  {
    SortedExact(s);
    var h := Sorted(s)[0];
    assert h in s;
  }

  /** Reading pages until they cover the rows gives the user's rows exactly, each
      once and newest first; a page is empty exactly when it starts past the end. */
  lemma PagesPartition(s: set<Link>, limit: int, n: nat)
    requires UniqueIds(s) && n * PageSize(limit) >= |s|
    ensures Pages(s, limit, n) == Sorted(s)
    ensures Descending(Pages(s, limit, n)) && |Pages(s, limit, n)| == |s|
    ensures forall x :: x in Pages(s, limit, n) <==> x in s
    ensures forall k: nat :: Page(s, limit, k) == [] <==> k >= |s|
  {
    SortedExact(s);
    PagesArePrefix(s, limit, n);
  }
}
