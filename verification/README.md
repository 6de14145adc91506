# roulettestats — a Dafny model of the dashboard's stateful core

The dashboard (`script.js`) fetches a roulette game's bet history, resolves
player addresses to ENS identities, aggregates per-player win/loss
statistics and renders three views. This project models the parts that hold
logic rather than markup:

- `bets.dfy` (module `Bets`): the records read from the two APIs — `Bet`,
  `Round` (a history item), `Identity` (the ENS record) — the win test
  `winAmount > 0`, and `history.map(item => item.bets[0].player)`.
- `aggregation.dfy` (module `Aggregation`): `processPlayerStats`. The class
  `StatsTable` holds the page-wide `playerStats` map; `ProcessPlayerStats`
  clears it and runs the single loop over the history, counting only each
  round's first bet. Its result is tied to the function `Aggregate`, and the
  lemmas relate `Aggregate` to an independent description: filter the first
  bets by player (`BetsOf`), then count wins and losses and sum the stakes.
  A round without bets makes `item.bets[0].player` throw in the source; the
  method returns `NoFirstBet(i)` for the first such round, with the map
  holding what the earlier rounds had already recorded (the JavaScript loop
  has updated the map before it throws).
- `ens_cache.dfy` (module `EnsCache`): `fetchENSData`. The class `Resolver`
  holds `ensCache`; the network request is a parameter (`Fetched(data)` or
  `FetchFailed`), consulted only on a miss. A ghost log of requests records
  when the network is used. A lookup has two halves: the cache test
  (`CheckCache`) and, on a miss, the completion after the awaits
  (`AwaitResponse`, the function `Complete`), which stores a successful
  response unconditionally. `Resolve` is a whole lookup with nothing in
  between; the lemmas state the hit, miss and no-failure-caching behaviour
  and monotonicity for lookups run one after the other, and what still holds
  when lookups overlap.
- `labels.dfy` (module `Labels`): the display-name fallback
  `ensData?.displayName || player.substring(0, 6) + '...' + player.substring(38)`,
  with JavaScript's `substring` clamping and argument swapping.
- `roster.dfy` (module `Roster`): the roster list `new Set(...)` read back in
  insertion order, i.e. the first bettors deduplicated in first-seen order,
  and its agreement with the stats map.

Amounts are integers. On a 42-character address (`0x` followed by 40 hex
digits) `substring(38)` keeps the last four characters, so the fallback label
is the first six characters, `...`, and the last four
(`Labels.ShortEthereumAddress`).

## Model

| member | source | states |
|---|---|---|
| `Bets.FirstBettors` | script.js:65 | one entry per round, each the player of that round's first bet, in history order |
| `Aggregation.Record` | script.js:52-60 | one counted bet adds one bet, adds one win exactly when `winAmount > 0` and one loss otherwise (so `wins + losses - totalBets` is preserved), and adds the stake to `totalSpent` |
| `Aggregation.Tally` | script.js:43-60 | one `forEach` step: the bettor becomes a key, starting from a zeroed record if new, and gets one more bet recorded; keys never disappear, and every other player's record is unchanged |
| `Aggregation.Aggregate` | script.js:37-61 | the single pass from an empty map; every stored record has at least one bet and `wins + losses == totalBets` |
| `Aggregation.StatsTable.constructor` | script.js:7 | the stats map starts empty |
| `Aggregation.StatsTable.ProcessPlayerStats` | script.js:36-62 | the map is cleared first, so the result does not depend on earlier calls (running twice gives the same map); if every round has a bet the map becomes `Aggregate(history)`; otherwise it reports the first round without a bet and the map holds the aggregate of the rounds before it |
| `Aggregation.AggregateMatchesHistory` | script.js:39-60 | a player is a key iff they were the first bettor of some round; their record's `totalBets` is the number of such rounds, `wins`/`losses` the number with positive / non-positive `winAmount`, `totalSpent` the sum of those stakes |
| `Aggregation.AggregateKeys` | script.js:43-53 | the keys of the map are exactly the set of first-bet players |
| `Aggregation.StatsConsistent` | script.js:53-60 | every stored record has `wins + losses == totalBets` and `totalBets >= 1` (a corollary of `Aggregate`'s contract) |
| `Aggregation.SummaryConsistent` | script.js:39-60 | the same consistency derived from the independent description: a player who bet first in some round has a summary with at least one bet, whose wins and losses add up to its bets |
| `Aggregation.WinsPlusLosses` | script.js:56-60 | each counted bet is a win or a loss, never both, so wins and losses add up to the number of bets |
| `Aggregation.SummarySnoc` | script.js:52-60 | recording one more bet updates the record exactly as counting the extended list of bets does |
| `Aggregation.BetsOfSnoc` | script.js:39-41 | a round appended to the history adds its first bet to its player's filtered bets and to no one else's |
| `Aggregation.TallyCommutes` | script.js:52-60 | counting two bets in either order gives the same map |
| `Aggregation.LoopStep` | script.js:43-60 | one turn of the loop over round `i` turns the aggregate of the rounds before `i` into the aggregate including round `i` |
| `Aggregation.AggregateSnoc` | script.js:39-61 | one more round at the end of the history adds exactly that round's first bet to the map |
| `Aggregation.AggregateSwap` | script.js:39-61 | swapping two neighbouring rounds anywhere in the history does not change the resulting map |
| `Aggregation.AggregateMoveToEnd` | script.js:39-61 | moving one round past any later stretch of rounds does not change the resulting map |
| `Aggregation.AggregatePermutation` | script.js:39-61 | any reordering of the history (same multiset of rounds) gives the same map: the aggregation is order-independent |
| `Aggregation.TwoRoundScenario` | script.js:36-61 | a paid 10 stake and an unpaid 5 stake by one player give `totalBets 2, wins 1, losses 1, totalSpent 15` |
| `EnsCache.Resolver.constructor` | script.js:5 | the ENS cache starts empty and no request has been made |
| `EnsCache.Resolver.FetchEnsData` | script.js:9-22 | answer and new cache are those of `Resolve`; a request is made exactly when the address is not cached |
| `EnsCache.Resolver.CheckCache` | script.js:10-12 | the cache test answers the stored value exactly when the address is cached, and changes nothing |
| `EnsCache.Resolver.AwaitResponse` | script.js:13-21 | after a miss a request is logged, and the answer and new cache are those of `Complete` |
| `EnsCache.Complete` | script.js:13-21 | a response stores its data under the address even if it is already cached, leaves every other entry alone, and returns it; a failure returns `null` and changes nothing |
| `EnsCache.Resolve` | script.js:9-22 | a whole lookup uses the network exactly on a miss; a non-null answer is what the cache then holds for the address; a `null` answer comes only from a failed request and leaves the cache unchanged |
| `EnsCache.HitServedFromCache` | script.js:10-12 | a cached address returns the stored value, makes no request and leaves the cache unchanged |
| `EnsCache.MissFetches` | script.js:13-21 | a miss always requests; success stores the result under exactly that address and returns it; failure returns `null` and leaves the cache unchanged |
| `EnsCache.CacheMonotone` | script.js:9-22 | a lookup never removes or changes an entry and adds at most the looked-up address |
| `EnsCache.SecondLookup` | script.js:9-22 | two lookups of one address make two requests only if the first failed; after a successful first lookup the second returns the same value from the cache |
| `EnsCache.SessionMonotone` | script.js:9-22 | after any sequence of lookups run one after the other every earlier entry is unchanged, and every new entry is a looked-up address whose request succeeded, holding that request's data |
| `EnsCache.OverlappingMissesOverwrite` | script.js:10-16 | two overlapping lookups of an uncached address both request, and the later response overwrites the entry the earlier one stored |
| `EnsCache.InterleavedSession` | script.js:13-21 | with responses arriving in any interleaving, no key is lost, an entry without a successful response for its address keeps its value, and every new or changed entry holds the data of a successful response for that address |
| `Labels.JsSubstring` | script.js:72 | `substring` never returns more characters than the string has |
| `Labels.SubstringSymmetric` | script.js:72 | `substring(a, b)` equals `substring(b, a)` |
| `Labels.SubstringPrefix` | script.js:72 | `substring(0, k)` is a prefix of the string of length `k`, clamped to `[0, length]` |
| `Labels.SubstringSuffix` | script.js:72 | `substring(k)` is the suffix of the string starting at `k`, empty when the string is shorter |
| `Labels.ShortAddress` | script.js:72 | the fallback label is the first six characters (fewer on a short address), `...`, then the characters from index 38 on |
| `Labels.ShortEthereumAddress` | script.js:72 | on a 42-character address the fallback label has 13 characters: first six, `...`, last four |
| `Labels.HasDisplayName` | script.js:72 | `ensData?.displayName` is falsy on a `null` lookup, and truthy only for a present, non-empty name |
| `Labels.DisplayName` | script.js:72 | the label is never empty; it is the ENS display name when that is a non-empty string, otherwise the shortened address |
| `Roster.Distinct` | script.js:65 | inserting into a `Set` and reading it back keeps exactly the input's elements and is never longer than the input |
| `Roster.UniquePlayers` | script.js:65-69 | `uniquePlayers` holds exactly the players of the rounds' first bets, each once, in first-seen order |
| `Roster.DistinctElements` | script.js:65 | the roster list holds exactly the first-bet players, each once |
| `Roster.DistinctFirstSeenOrder` | script.js:65-69 | the roster list is ordered by each player's first appearance in the history |
| `Roster.RosterMatchesStats` | script.js:69-78 | every listed player has a stats record with at least one bet (so the win rate never divides by zero), and every player in the stats map is listed |

## Left out

- Network I/O: `fetch`, `response.json()` and the `fetchHistory` orchestration (script.js:24-34, 183). The ENS request's outcome is a parameter of `FetchEnsData`. `FetchFailed` stands for a rejected `fetch` or `response.json()` only: an HTTP error status whose body is JSON does not reject, so it is `Fetched` and cached, and "failures are never cached" is meant in that sense. A JSON body that is not an object (for instance `null`) is not modelled.
- The order of calls in `fetchHistory` (aggregate, then roster, then history feed) is not modelled.
- EnsCache.CacheMonotone, EnsCache.SecondLookup, EnsCache.SessionMonotone: these hold for lookups that run one after the other, each taken as one atomic step. Lookups can overlap: the history feed is started without `await` (script.js:30), and the cards' click handlers (script.js:76, 148) start lookups of their own (script.js:103). Two overlapping lookups of an uncached address both request, and the later `ensCache.set` overwrites the earlier entry (`EnsCache.OverlappingMissesOverwrite`). For overlapping lookups the model proves only `EnsCache.InterleavedSession`; which interleavings the browser produces is not modelled.
- All DOM construction, `innerHTML` templates, click handlers, avatar placeholders and `onerror` fallbacks (script.js:66-97, 106-133, 137-179): presentation only.
- The win-rate string `((wins / totalBets) * 100).toFixed(1)` (script.js:78): floating-point formatting. `Roster.RosterMatchesStats` shows it is never evaluated with `totalBets == 0`.
- `new Date(item.timestamp).toLocaleString()` (script.js:162): locale-dependent formatting.
- Floating-point stakes: `totalSpent += bet.amount` is modelled on integers.
- `console.error` logging on failures.
- Aliasing: the source mutates the record object stored in the map; the model stores immutable records and writes the updated record back, which is observably the same because no other reference to a record is kept during the loop.
- `displayPlayerStats` for a player absent from the stats map: after the ENS lookup, `stats.totalBets` throws a TypeError (script.js:118), and the stats panel keeps its previous content. It only feeds markup and is not modelled.
- Strings are sequences of Unicode characters, while JavaScript's `substring` counts UTF-16 code units. The two agree on addresses, which are ASCII hex; addresses outside the Basic Multilingual Plane are not modelled.
- Labels.DisplayName: models a display name that is a string or absent; JavaScript truthiness of other JSON values (numbers, objects) is not modelled.
