# Link service: a verified model

The link service shortens URLs. It numbers links with a Snowflake generator, turns
the number into a base62 code, stores the row in Postgres, answers redirects through
a Redis cache in front of the table, and publishes a click event per redirect. This
project models that pipeline in Dafny and proves what its parts promise together.

## How it is built

- `Int64`: two's complement `|`, `&`, `<<`, `>>` and wrap-around on mathematical integers.
- `Base62`: `Encode` (digit loop, in-place reversal) and `Decode` (wrapping Horner loop)
  as methods proved against `Code` and `Decoded`, and the laws of those two functions.
- `Snowflake`: packing, one call of `Next` as a function, and the `Generator` class over
  a `Clock` that returns an arbitrary stream of readings.
- `GeneratorRuns`: the stamps a generator issues over any sequence of calls.
- `GeneratorThreads`: concurrent calls of `Next` in atomic steps (call, lock, clock read,
  compare and bump, spin, store, pack, unlock, return), under any schedule.
- `Links`, `Listing`, `Stores`, `LinkService`, `Redirects`: expiry and TTL, listing order and
  pages, the two stores, the `Service`, and the `Builder` and `Handlers` that publish clicks.
- `Transparency`: sequences of requests against the service with and without the cache.
- `System`: the whole service as one state machine. Instances have distinct worker IDs,
  unrelated generator clocks and restarts; requests interleave in atomic steps; the cache
  may fail or forget at any step; an insert or a cache write may be refused, or done and
  reported as failed; any request may vanish at any step.
- `SystemSafety`, `SystemHistory`, `SystemAnswers`, `SystemClicks`: the theorems about every
  run. `SystemHistory` traces rows, answers and delays back to the events behind them.
- `SystemRefinement`: from any point of any run, the steps of one request can be taken
  without interruption, and are then `Handlers.Redirect` and `Service.Create`.
- `SystemWitness`: a family of runs that attains the staleness bound.

Specification functions such as `NextGen`, `CacheTtlFor`, `RowsOf` or `NewLink` are not
trusted: for each there is a contract or lemma that says the same in plain terms, about
clock readings, comparisons of times, and fields of rows.

`System` takes a draw from the generator as one step. `GeneratorThreads.Linearizable`
is what allows this: concurrent calls on one generator are equivalent, in lock order and
in real-time order, to a sequential run of the same `NextGen` and `NextOutcome`.

The delay between computing a TTL and writing the cache entry is not assumed away: the
state records the longest such delay so far as `lag`, and the bounds are stated in it.

Assumptions of `System`, all in its `Enabled` predicate: a generator issues IDs only at
readings in the 41-bit window and, after a restart, only after the last millisecond of
the worker's earlier lives (`GeneratorRuns.RestartRepeatsIff` shows what happens
otherwise); worker IDs are distinct; time does not run backwards for the services and
the cache, which share one clock; a submitted URL is the non-empty result of validation.
`SystemHistory.LaterReadingDraws` says which readings always satisfy the first of these.

## Where code and comments differ

The model follows the code.

- IDs are documented as always positive. They are zero at one point of the window
  (`Snowflake.PackPositiveIff`) and negative for a clock before 2024 or past the window
  (`Snowflake.PackNonNegativeIff`); every negative ID has the empty short code, so two
  such links collide (`Base62.CodesDistinctIff`, `GeneratorRuns.SameCodeIff`). A link with
  ID zero is stored in the cache but never served from it.
- A cache entry is documented never to outlive its link. It does exactly when the write
  comes later than the TTL computation and the plain TTL reaches past the expiry
  (`Links.OutlivesIff`); `SystemWitness.StaleAfterExpired` is a run where it shows.
- The sequence of a millisecond starts at 0, except at the Unix epoch, where it starts
  at 1 because `lastMs` is initially zero (`GeneratorRuns.GapFree`).
- The page size comment speaks of a ceiling of 100; a larger limit gives 20, not 100.

## Model

| member | source | states |
|---|---|---|
| `Int64.BitwiseOps` | internal/snowflake/snowflake.go:96-98 | The `Or` and `And` used for packing act bit by bit on the two's complement expansion |
| `Int64.OrDisjoint` | internal/snowflake/snowflake.go:96-98 | Or-ing a field below the lowest set bit is addition, for negative numbers too |
| `Int64.AndMask` | internal/snowflake/snowflake.go:118-124 | Masking with 2^k - 1 is the remainder modulo 2^k, for negative numbers too |
| `Base62.AlphabetIsTable` | internal/shortcode/base62.go:13-15 | The 62-symbol alphabet literal is the table that the other members use |
| `Base62.DigitIsIndexRune` | internal/shortcode/base62.go:42 | Looking a symbol up by ranges is the first-index search in the alphabet |
| `Base62.AlphabetIsAlphanumeric` | internal/shortcode/base62.go:13 | The alphabet is exactly the ASCII digits and letters |
| `Base62.ReverseInPlace` | internal/shortcode/base62.go:28-30 | The swap loop reverses the used part of the buffer and leaves the rest |
| `Base62.Encode` | internal/shortcode/base62.go:18-32 | The digit loop and reversal compute `Code` for every int64 in letters and digits; the 11-byte buffer suffices and only negative ids give the empty code |
| `Base62.Decode` | internal/shortcode/base62.go:36-49 | The wrapping Horner loop computes the value modulo 2^64; it fails exactly on the empty word and at the first symbol that is no ASCII letter or digit |
| `Base62.RoundTrip` | internal/shortcode/base62.go:18-49 | Every id in [0, 2^63) gives 1 to 11 alphabet symbols that decode to it, and no Horner prefix wraps |
| `Base62.CodeLength` | internal/shortcode/base62.go:22-27 | A code has k symbols exactly when 62^(k-1) <= id < 62^k |
| `Base62.DecodeEncodeIff` | internal/shortcode/base62.go:18-49 | Encoding a decoded word strips leading zeros; it gives the word back exactly when the word is canonical and fits int64 |
| `Base62.EncodeBijective` | internal/shortcode/base62.go:18-49 | Each canonical word below 2^63 is the code of exactly one id |
| `Base62.CodeCanonical` | internal/shortcode/base62.go:18-32 | Every code is canonical |
| `Base62.CodesDistinctIff` | internal/shortcode/base62.go:18-32 | Distinct ids share a code exactly when both are negative |
| `Base62.CodeOrder` | internal/shortcode/base62.go:13-32 | ids are ordered as their codes are by length, then bytes |
| `Snowflake.PackRefinesLayout` | internal/snowflake/snowflake.go:4-13 | The shift-and-or result is time, worker and sequence in their documented fields exactly when time does not overflow; in the window it is in [0, 2^63) |
| `Snowflake.PackNonNegativeIff` | internal/snowflake/snowflake.go:96-98 | On any clock, which times give a non-negative ID |
| `Snowflake.PackPositiveIff` | internal/snowflake/snowflake.go:4-13 | In the window the ID is positive except at one single point |
| `Snowflake.DecomposePack` | internal/snowflake/snowflake.go:118-124 | Decomposing an ID gives back its fields exactly when the time field does not overflow |
| `Snowflake.PackDecompose` | internal/snowflake/snowflake.go:118-124 | Repacking the parts of any int64 gives it back |
| `Snowflake.PackOrder` | internal/snowflake/snowflake.go:96-98 | IDs are equal only for equal fields, ordered by millisecond across workers, and by (ms, sequence) within one |
| `Snowflake.NextAdvances` | internal/snowflake/snowflake.go:76-99 | A call fails exactly on a reading below lastMs and changes nothing; a success stores the reading itself and moves (lastMs, sequence) lexicographically up |
| `Snowflake.Generator.New` | internal/snowflake/snowflake.go:56-65 | A generator is built exactly for worker IDs 0..1023 |
| `Snowflake.Generator.WaitNextMillis` | internal/snowflake/snowflake.go:103-108 | The wait ends for any clock that eventually passes lastMs, at the first such reading |
| `Snowflake.Generator.Next` | internal/snowflake/snowflake.go:72-100 | One call is one step of the functional generator; in the window its ID decomposes to the very reading that decided it, the worker and the next sequence number; it waits only when the sequence is exhausted |
| `GeneratorRuns.HistoryIncreases` | internal/snowflake/snowflake.go:67-100 | Stamps strictly increase over any run, on any clock |
| `GeneratorRuns.IdsAndCodesIncrease` | internal/snowflake/snowflake.go:72-100 | In the window, IDs and their codes strictly increase over a run |
| `GeneratorRuns.SameCodeIff` | internal/repository/postgres.go:75-77 | Two stamps of any workers share a code exactly when they are the same or both lie before the epoch |
| `GeneratorRuns.GapFree` | internal/snowflake/snowflake.go:82-92 | The sequence numbers of one millisecond are 0..k-1 in order, with at most 4096 of them |
| `GeneratorRuns.SpinsOnlyWhenExhausted` | internal/snowflake/snowflake.go:82-88 | A call waits exactly when all numbers of the millisecond it reads are taken |
| `GeneratorRuns.RateBound` | internal/snowflake/snowflake.go:13 | Any window of t milliseconds holds at most 4096 t IDs of one generator |
| `GeneratorRuns.NextFromHistory` | internal/snowflake/snowflake.go:76-99 | Without the fields: a call fails exactly when its reading is negative or below an earlier stamp, and otherwise issues its own reading, or the one ending its wait if that millisecond is used up, with the next free number |
| `GeneratorRuns.SteadyClockNeverFails` | internal/snowflake/snowflake.go:76-80 | On non-negative, non-decreasing readings no call of a run fails |
| `GeneratorRuns.RestartRepeatsIff` | internal/snowflake/snowflake.go:38-65 | Two lives of a worker ID repeat an ID exactly when they issued in a common millisecond |
| `GeneratorThreads.SimulatesSequential` | internal/snowflake/snowflake.go:72-108 | With the mutex free, the fields are those of a legal sequential run |
| `GeneratorThreads.Linearizable` | internal/snowflake/snowflake.go:72-108 | Finished calls got the outcomes of one sequential run, in lock order and real-time order; in-window IDs increase in that order |
| `GeneratorThreads.AttemptsAreReadings` | internal/snowflake/snowflake.go:72-108 | Each attempt of that run consists of clock readings its own call took between its lock and its return, and the orders are those of the schedule's events |
| `GeneratorThreads.CallAlone` | internal/snowflake/snowflake.go:72-108 | An uninterrupted call returns what Next returns on its readings, and leaves the fields as Next does |
| `GeneratorThreads.NeverStuck` | internal/snowflake/snowflake.go:72-108 | While any call has not returned, some call can take a step |
| `Links.OutlivesIff` | internal/link/service.go:142-152 | Exactly when a cache entry outlives its link, and by how much at most |
| `Links.TtlIsGreatest` | internal/link/service.go:144-152 | The TTL is the greatest duration within the plain TTL and the time left; without expiry it is the plain TTL |
| `Stores.Redis.Get` | internal/cache/redis.go:50-63 | A hit is exactly a live entry with a non-zero ID and a non-empty URL; only a failed call errs |
| `Stores.Redis.Set` | internal/cache/redis.go:67-79 | A healthy write replaces the entry and is served exactly until its deadline; a non-positive TTL writes nothing; other codes are untouched |
| `Stores.InsertKeepsTable` | migrations/000001_create_links.up.sql:3-10 | Inserting keeps both unique keys and every old row; the new row is found exactly when no key conflicts |
| `Stores.Postgres.Create` | internal/repository/postgres.go:78-92 | The row is added exactly when neither key conflicts; a lost reply leaves it there |
| `Stores.Postgres.GetByShortCode` | internal/repository/postgres.go:95-110 | The row of the code, not found, or a database error |
| `Stores.Postgres.ListByUser` | internal/repository/postgres.go:113-130 | Rows of this user only, by created_at and then id descending, the slice asked for; all of them if it is long enough |
| `Stores.UserPage` | internal/repository/postgres.go:114-119 | How long a page is, that it holds this user's rows only, and its order by the two keys |
| `Stores.UserRowListedIff` | internal/repository/postgres.go:114-119 | A row of the user is on the page exactly when at least offset and fewer than offset + limit of the user's rows are newer |
| `Stores.UserPages` | internal/link/service.go:127-135 | Pages read to the end hold exactly the rows with this user ID, each once, newest first |
| `Listing.SortedExact` | internal/repository/postgres.go:114-119 | The listing has exactly the user's rows, each once, strictly descending |
| `Listing.SortedUnique` | internal/repository/postgres.go:114-119 | No other sequence orders these rows so |
| `Listing.PagesPartition` | internal/link/service.go:127-135 | Successive pages concatenate to the whole listing, each row once; a page is empty exactly past the end |
| `LinkService.Service.CacheTTLFor` | internal/link/service.go:144-152 | The plain TTL without expiry; otherwise the smaller of the plain TTL and the time left at the instant of computing |
| `LinkService.Service.Create` | internal/link/service.go:67-97 | Field by field, the link made from the caller's user, URL and expiry and the drawn ID; no ID for a bad URL, no row without an ID, no cache write without a row |
| `LinkService.CreatedIsListed` | internal/link/service.go:67-135 | A link just created is on its owner's pages, first if the owner's other links are older |
| `LinkService.Service.Resolve` | internal/link/service.go:103-124 | In terms of entry, row and times: cache first, then the table with the expiry check; a miss on a working link fills the cache |
| `LinkService.Service.ListByUser` | internal/link/service.go:127-135 | Limits 1 to 100 are kept and others mean 20; the page has this user's rows only, in order, and as many as are left |
| `Redirects.Builder.Build` | internal/clicks/builder.go:46-65 | One draw from the generator; the event carries that ID and the given link data |
| `Redirects.Handlers.Redirect` | internal/httpapi/handlers.go:117-141 | The response depends on Resolve alone; an event follows only a redirect, with the resolved link and one ID of the shared generator |
| `Transparency.CachedIsDirect` | internal/link/service.go:67-124 | With each request at one instant, every answer is the one the table alone gives after the earlier requests |
| `Transparency.CacheTransparent` | internal/link/service.go:91-124 | Two runs with the same requests but different caches, faults and evictions give the same answers |
| `Transparency.OnlyEvictedLost` | internal/cache/redis.go:50-79 | Entries are lost by eviction alone, and a live one that is left answers |
| `Transparency.ResolveDiffersIff` | internal/link/service.go:103-124 | With separate instants, the answers differ exactly on a hit whose link expires in between |
| `Transparency.WarmCacheServes` | internal/link/service.go:91-123 | After a healthy Create or miss before the expiry time, the code is answered without the table for the cache TTL or until the expiry, whichever is first |
| `SystemRefinement.RedirectRuns` | internal/httpapi/handlers.go:117-141 | From any point of any run, the uninterrupted steps of a redirect answer and fill the cache as Resolve does and publish exactly one event, with the answer's link and one drawn ID, after a good answer only |
| `SystemRefinement.CreateRuns` | internal/link/service.go:67-97 | From any point of any run, the uninterrupted steps of a creation draw, store and cache as Create does |
| `SystemRefinement.AcceptRuns` | internal/httpapi/handlers.go:117-121 | Any running instance takes any creation and any redirect at any point of any run |
| `SystemRefinement.RestartRuns` | internal/snowflake/snowflake.go:56-65 | Any instance may start or restart at any point, with all generator fields zero |
| `SystemRefinement.ForgetRuns` | internal/link/service.go:99-124 | The cache may forget any set of entries at any point, and nothing else changes |
| `SystemRefinement.VanishRuns` | internal/link/service.go:67-124 | Any request may end at any point, and nothing else changes |
| `SystemSafety.TakeFresh` | cmd/link/main.go:78-115 | A draw issues an ID that no instance and no earlier life has issued |
| `SystemSafety.InsertFresh` | internal/repository/postgres.go:75-91 | Under the invariant, a link about to be inserted conflicts with no row |
| `SystemSafety.Reachable` | internal/link/service.go:67-124 | Every run keeps the invariant of generators, rows, requests, cache and clicks |
| `SystemSafety.NoCollision` | internal/repository/postgres.go:75-91 | In every run a row about to be inserted has a fresh ID and a fresh code |
| `SystemSafety.IdsDistinct` | cmd/link/main.go:109-115 | IDs of links and click events are pairwise distinct over all instances |
| `SystemSafety.AllAgree` | internal/link/service.go:20-26 | Every row, cache entry and click event agrees with the row of its code, which is the encoding of the ID |
| `SystemSafety.BoundedStaleness` | internal/link/service.go:142-152 | A cache hit carries its row and is never served later than the expiry time plus the lag |
| `SystemHistory.RowsAreSubmissions` | internal/link/service.go:67-89 | Every row carries the user, URL and expiry of the request that made it, the time it was built, and an ID drawn for that request |
| `SystemHistory.RepliesAreRequests` | internal/link/service.go:103-124 | Every answer belongs to the redirect that asked for its code, and its kind says which step gave it |
| `SystemHistory.LagIsADelay` | internal/link/service.go:142-152 | The lag is zero or the time between one request's TTL computation and its cache write |
| `SystemHistory.LaterReadingDraws` | cmd/link/main.go:78 | Any reading in the window after all IDs of the worker, earlier lives included, draws an ID |
| `SystemAnswers.EveryAnswerJustified` | internal/link/service.go:99-124 | Every answer is the table's at an instant inside the call, a database error, or a value decided at most the lag after expiry; not found and expired are said of absent and expired rows only |
| `SystemAnswers.ExactWithoutLag` | internal/link/service.go:99-124 | Without lag, every answer is the table's at an instant inside the call or a database error |
| `SystemAnswers.ReadYourWrites` | internal/link/service.go:87-123 | Once a row is stored, later Resolves up to its expiry return it or a database error |
| `SystemAnswers.StatusMovesForward` | internal/link/link.go:28-31 | Successive answers only move from not found to found to expired, and found ones are equal |
| `SystemAnswers.NoCollisionAndAgreement` | internal/httpapi/handlers.go:117-141 | In every run no code collides, and every redirect and click event agrees with the table |
| `SystemClicks.ClicksAreAnswers` | internal/httpapi/handlers.go:130-140 | The published events are one per click draw, by different redirects, each with exactly what its redirect answered |
| `SystemClicks.ClicksCounted` | internal/httpapi/handlers.go:130-140 | In every run there are as many events as publish steps whose reading yields an ID |
| `SystemClicks.EveryClickPublished` | internal/httpapi/handlers.go:130-140 | Each such step has published the code, link ID and URL its redirect was sent to |
| `SystemWitness.StaleAfterExpired` | internal/link/service.go:142-152 | For every lag of at least 2, a run serves a hit at expiry plus lag after another caller was told expired |

## Left out

- URL parsing and host blocking: `net/url` and `net.IP` are not part of this model; validation is an arbitrary partial function from strings to strings.
- The Postgres, Redis, Kafka, gRPC and GeoIP clients, JSON and protobuf encoding: library calls; the stores are maps whose calls may fail.
- Rounding of Redis TTLs and of Postgres timestamps: one integer time unit is used throughout.
- Skew between the clocks of different services and of Redis: they share one clock in `System`; only the generators' clocks are unrelated.
- Undecodable cache values from an older format: every cache entry holds a pair; such a value behaves like an absent one.
- IP hashing, user agent, referrer, country and click time of an event: passed through or computed by libraries.
- Delivery of published events: at most once and asynchronous; the model stops at the call of the publisher.
- Router, middleware, authentication, status mapping, response bodies, health check, configuration, logging, wiring and shutdown: single-branch plumbing.
- Fairness of the mutex and of the scheduler: `GeneratorThreads` proves what finished calls got, not that every call finishes.
