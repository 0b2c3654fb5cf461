/** The link domain: internal/link/link.go and the pure parts of service.go. */
module Links {
  import opened Wrappers

  /** Times are integers in one unit; expiresAt None means a link without expiry. */
  datatype Link = Link(
    id: int,
    shortCode: string,
    originalURL: string,
    userID: string,
    createdAt: int,
    expiresAt: Option<int>)

  /** What a redirect and its click event need: cached as a pair. */
  datatype Resolved = Resolved(linkID: int, originalURL: string)

  datatype Error =
    | InvalidURL
    | IdGeneration(byMs: int)
    | UniqueViolation(code: string)
    | NotFound
    | Expired
    | Database

  function ResolvedOf(l: Link): Resolved {
    Resolved(l.id, l.originalURL)
  }

  /** Strictly after the expiry time: at expiresAt itself the link still works. */
  predicate IsExpired(l: Link, now: int) {
    l.expiresAt.Some? && now > l.expiresAt.value
  }

  // ---------- cache TTL ----------

  const MAX_DURATION: int := 0x7fff_ffff_ffff_ffff

  /** Go's Time.Sub: the difference, saturated to an int64 duration. */
  function Sub(t: int, u: int): int {
    if t - u > MAX_DURATION then MAX_DURATION
    else if t - u < -MAX_DURATION - 1 then -MAX_DURATION - 1
    else t - u
  }

  function CacheTtlFor(l: Link, cacheTTL: int, now: int): int {
    if l.expiresAt.Some? && Sub(l.expiresAt.value, now) < cacheTTL
    then Sub(l.expiresAt.value, now)
    else cacheTTL
  }

  /** The TTL is the greatest duration that exceeds neither the plain TTL nor, for an
      expiring link, the time left: a link without expiry gets the plain TTL. */
  lemma TtlIsGreatest(l: Link, cacheTTL: int, now: int, t: int)
    requires cacheTTL <= MAX_DURATION
    requires l.expiresAt.Some? ==> l.expiresAt.value - now >= -MAX_DURATION - 1
    ensures t <= CacheTtlFor(l, cacheTTL, now)
       <==> t <= cacheTTL && (l.expiresAt.Some? ==> now + t <= l.expiresAt.value)
  {
  }

  /** The comment on cacheTTLFor promises that an entry never outlives its link.
      With the TTL computed at `at` and applied at `setAt`, the entry's deadline
      setAt + ttl exceeds the expiry time exactly when the write came later than
      the computation and the plain cache TTL would reach past the expiry too. */
  lemma OutlivesIff(l: Link, cacheTTL: int, at: int, setAt: int)
    requires l.expiresAt.Some? && cacheTTL <= MAX_DURATION && at <= setAt
    requires CacheTtlFor(l, cacheTTL, at) > 0
    ensures setAt + CacheTtlFor(l, cacheTTL, at) > l.expiresAt.value
       <==> at < setAt && setAt + cacheTTL > l.expiresAt.value
    ensures setAt + CacheTtlFor(l, cacheTTL, at) <= l.expiresAt.value + (setAt - at)
  {
  }
}
