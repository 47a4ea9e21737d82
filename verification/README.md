# Dota bot core, modelled in Dafny

This project models the deterministic core of a Discord bot that answers Dota 2 and movie questions. That core is the data shaping between the command dispatcher and three external services: the OpenDota statistics API, the TMDB movie API and the OpenAI completion API. Every network call, clock reading and random draw becomes a parameter. What remains are pure functions over sequences and records:

- **Heroes** (`src/heroes.js`):
  - win rate with a zero-pick guard;
  - role filter, stable sort by descending win rate, and a cut at `count`;
  - the fan-out over the fixed list of eight roles;
  - the case-insensitive lookup: exact name first, then the first name containing the query;
  - attribute labels.
- **Cache** and **HeroStatsApi** (`src/api.js`): the single `{data, timestamp}` slot with its strict five-minute freshness rule. Only a successful fetch overwrites it.
- **Movies** (`src/movies.js`):
  - the same cache, with the API-key check made only on a miss;
  - the rated-movie filter over two pages;
  - the Fisher-Yates shuffle, driven by a stream of `Math.random()` values;
  - the top-pool pick;
  - the overview cut and the poster link.
- **Pricing** (`src/logger.js`): `calculateCost`, computed over exact reals.
- **Ask** and **Json** (`src/ask.js`):
  - the conversation sent to the completion service and how it grows;
  - how failures of the match-summary tool are absorbed into a `JSON.stringify({error})` payload, while unparseable arguments are not;
  - token usage summed over both responses.
- **Embeds** (`src/embeds.js`):
  - the fixed-width leaderboard table and its alignment;
  - colour fallbacks;
  - overview ordering;
  - the roles field with its `'None'` fallback.

Shared helpers:

- **Seqs**: `filter`, `slice(0, end)` including a negative `end`, and `find`.
- **Ranking**: a stable descending insertion sort, generic over the key.
- **Text**: `toLowerCase`, `trim`, `includes`, the padding functions, `join`, `split` and decimal rendering.
- **Http**: the `fetch` response and its `ok` check.

The main properties proved:

- The role ranking is non-increasing and stable. Its cut is characterised by rank: a returned hero has fewer than `count` candidates strictly above it, and a hero with at most `count` candidates at or above it is returned.
- The lookup ignores case and surrounding white space, and picks exactly as the exact-then-partial priority says.
- The cache serves within five minutes and refreshes at exactly five minutes. A failed fetch leaves no trace.
- The shuffle is a permutation. Every picked movie lies within the rating pool.
- The cost is additive, so pricing summed usage equals summing the prices.
- The error payload decodes back to the error message.
- Table rows align with the header exactly when the rank fits in three characters and the win-rate text fits in six. The table text splits back into its lines.

## Model

| member | source | states |
|---|---|---|
| `Heroes.WinRate` | src/heroes.js:22-25 | A hero with 0 (or missing) picks has win rate 0; otherwise the rate times the picks is 100 times the wins, and lies in [0, 100] when wins do not exceed picks |
| `Heroes.TopHeroesByRole` | src/heroes.js:33-49 | Never longer than the list, nor than `count` when `count >= 0`; `count = 0` gives nothing (a negative `count` drops from the end, as `slice` does); the ordering, role and cut properties are stated by `Heroes.TopHeroesByRoleSpec`, `Heroes.TopHeroesByRoleCut` and `Heroes.TopHeroesByRoleTies` |
| `Ranking.SortDesc` | src/heroes.js:47 | The sort returns a rearrangement of its input (same multiset, same length) that is non-increasing in the key |
| `Ranking.SortStable` | src/heroes.js:47 | For every key value, the elements carrying it keep their input order, as `Array.prototype.sort` is stable |
| `Heroes.TopHeroesByRoleSpec` | src/heroes.js:33-49 | Every returned entry comes from a hero of the list having the role (none without roles); the result is non-increasing in win rate; its length is `min(count, heroes with the role)` for `count >= 0`; no candidate appears more often than in the list |
| `Heroes.TopHeroesByRoleCut` | src/heroes.js:47-48 | The cut is by rank: a returned hero has fewer than `count` candidates with a strictly higher win rate, and a hero with at most `count` candidates at or above its rate is returned |
| `Heroes.TopHeroesByRoleTies` | src/heroes.js:47-48 | Heroes with equal win rates appear in the result in list order (a prefix of their order among the candidates) |
| `Heroes.TopForRoles` | src/heroes.js:58-60 | One entry per role, in the given order, each holding that role's ranking |
| `Heroes.AllRolesTop` | src/heroes.js:56-62 | Exactly 8 entries keyed by the roles in order, each equal to `getTopHeroesByRole(role, count)` over the same list |
| `Heroes.RolesDistinct` | src/heroes.js:6-15 | The eight role names are pairwise different, so the result object has eight keys |
| `Heroes.AttrLabel` | src/heroes.js:64 | `str`, `agi`, `int`, `all` map to Strength, Agility, Intelligence, Universal; any other code passes through unchanged |
| `Heroes.FindHero` | src/heroes.js:73-80 | If some lower-cased name equals the lower-cased, trimmed query, the first such hero is chosen; otherwise the first whose name contains the query; nothing exactly when none contains it |
| `Heroes.LookupHero` | src/heroes.js:71-108 | A found hero is the detail of some hero of the list whose lower-cased name contains the normalised query; an empty list finds nothing; the converse and the choice between matches are stated by `Heroes.LookupHeroFound` and `Heroes.FindHero` |
| `Heroes.LookupHeroFound` | src/heroes.js:76-80 | The lookup returns null exactly when no lower-cased name contains the normalised query |
| `Heroes.LookupHeroQueryInsensitive` | src/heroes.js:73 | Changing the query's letter case or surrounding it with white space does not change the lookup result |
| `Heroes.DetailFigures` | src/heroes.js:82-106 | A hero with picks reports its picks and the ranking's win rate; one with 0 picks reports 1 pick and `100 * wins`; a missing role list is reported as empty |
| `Http.Receive` | src/api.js:24-28 | A response yields its body exactly when it is 2xx and its body parses; a non-2xx status raises an error carrying status and status text |
| `Cache.Read` | src/api.js:15-31 | A fresh slot answers with its data, unchanged and without fetching; otherwise the fetch outcome is returned, a success is stored with the clock reading taken before the fetch, and any failure leaves the slot unchanged |
| `Cache.EmptyMisses` | src/api.js:6-9 | The initial `{null, 0}` slot is never fresh, so the first call always fetches |
| `Cache.FreshWindow` | src/api.js:18-20 | After a successful fetch at `t`, a call at a time in `[t, t + 300000)` returns the same result and slot without fetching; from `t + 300000` on it fetches |
| `Cache.FailureLeavesNoTrace` | src/api.js:24-26 | After a failed fetch the next call behaves as if the failed call had not happened |
| `HeroStatsApi.FetchHeroStats` | src/api.js:15-31 | A hit serves the cached list; on a miss an OK response with a parseable body is returned and stored with timestamp `now`; a non-OK response raises the status error and leaves the slot unchanged |
| `HeroStatsApi.HeroStatsExpiry` | src/api.js:4-20 | Freshness is strict: a slot filled at `t` is served at `t + 299999` and refetched at `t + 300000` |
| `Movies.FetchNowPlaying` | src/movies.js:16-44 | A fresh slot is served unchanged; on a miss without a key the call fails with the missing-key error; every failure leaves the slot as it was; the full case split is `Movies.FetchNowPlayingSpec` |
| `Movies.FetchNowPlayingSpec` | src/movies.js:16-44 | A fresh slot is served even with no API key; on a miss a missing key fails before any request; a failed page fails the call; either failure leaves the slot unchanged; otherwise the rated movies of page 1 then page 2 are returned and stored |
| `Movies.DrawIndex` | src/movies.js:51 | `Math.floor(r * (i + 1))` with `r` in [0, 1) is a position in [0, i] |
| `Movies.ShuffleFrom` | src/movies.js:50-53 | Each swap step of the Fisher-Yates loop keeps the elements (multiset) and the length |
| `Movies.Shuffle` | src/movies.js:49-55 | The shuffle returns a permutation of its input |
| `Movies.PickMoviesLength` | src/movies.js:67-69 | For `count >= 0` the pick has `min(count, number of movies)` movies |
| `Movies.PickMovies` | src/movies.js:67-69 | The pick is never longer than the list, nor than `count` when `count >= 0`; its exact length, origin and rating bound are `Movies.PickMoviesLength`, `Movies.PickFromPool` and `Movies.PickMoviesFromTop` |
| `Movies.PickFromPool` | src/movies.js:67-69 | The pick is drawn without repetition from the pool, and the pool from the cached list |
| `Movies.PickMoviesFromTop` | src/movies.js:67-69 | No movie is picked more often than it occurs in the list, and each pick has fewer than `max(3 * count, 15)` movies rated strictly higher |
| `Movies.Overview` | src/movies.js:73 | At most 120 characters; a longer overview becomes its first 117 characters plus `...` (exactly 120); a non-empty shorter one is kept; a missing or empty one becomes `No overview available.` |
| `Movies.OverviewIdempotent` | src/movies.js:73 | An overview already shortened is shown unchanged |
| `Movies.PosterUrl` | src/movies.js:76 | No link exactly when the poster path is missing or empty; otherwise the image base followed by the path |
| `Movies.RandomTopMovies` | src/movies.js:63-78 | Fails exactly when the fetch fails; leaves the cache slot as the fetch left it; otherwise returns one card per picked movie, in pick order |
| `Pricing.CalculateCost` | src/logger.js:57-70 | Models starting with `gpt-4o-mini` cost `in/1e6*0.15 + out/1e6*0.6`; others starting with `gpt-4o` cost `in/1e6*5 + out/1e6*15`; any other model costs 0 |
| `Pricing.MiniBeforeFull` | src/logger.js:61-64 | A mini model name also matches the `gpt-4o` prefix, and the mini rates win |
| `Pricing.CostMonotone` | src/logger.js:57-70 | Zero tokens cost 0; for non-negative counts the cost is non-negative and non-decreasing in each count |
| `Pricing.CostAdditive` | src/logger.js:62-69 | The cost of summed counts is the sum of the costs |
| `Json.UnescapeEscape` | src/ask.js:67 | Decoding the JSON string escape of a message gives the message back |
| `Json.ErrorPayloadShape` | src/ask.js:67 | The tool error content is `{"error":"` + the escaped message + `"}`, and its escaped part decodes to the message |
| `Ask.ToolTurns` | src/ask.js:58-77 | One tool message per call in call order, each carrying the call's id and name, when all arguments parse; otherwise the failure names the first call whose arguments do not parse |
| `Ask.AskDota` | src/ask.js:38-104 | One or two completion requests; a second exactly when the first reply has tool calls whose arguments all parse; a failure makes only the first request and only on the tool path; the request and answer details are the `Ask.AskDota*` lemmas below |
| `Ask.AskDotaOpening` | src/ask.js:39-50 | The first request carries exactly the system and user turns and the single `fetch_match_details` tool, with the mini model, 1024 tokens and temperature 0.7; at most two requests are made |
| `Ask.AskDotaDirect` | src/ask.js:96-103 | Without tool calls one request is made; the answer is the first reply's content; tokens are its prompt plus completion tokens (missing as 0), priced at the mini rates |
| `Ask.AskDotaToolTurns` | src/ask.js:55-84 | With tool calls (even an empty list) whose arguments parse, a second request is made, with the mini model, 1024 tokens and no tools, over the conversation grown by the assistant turn and then one tool turn per call, in order |
| `Ask.AskDotaToolUsage` | src/ask.js:86-93 | On the tool path the answer is the second reply's content; tokens are the sum over both responses (missing usage as 0); the cost of the totals equals the sum of each response's cost |
| `Ask.ToolFailureAbsorbed` | src/ask.js:62-68 | A failing summarizer yields the `{error}` payload as tool content; an unknown function name yields empty content |
| `Ask.AskDotaMalformed` | src/ask.js:60 | Unparseable tool arguments make the call fail, with no second request |
| `Embeds.RoleColorsCoverRoles` | src/embeds.js:6-26 | The colour table's keys are exactly the eight roles, each with a colour other than the fallback; any other role gets `0x607D8B` |
| `Embeds.AttrCodeColor` | src/embeds.js:105-118 | Every known attribute code's label has its own colour; a code that is neither known nor a label gets `0x607D8B` |
| `Embeds.NameWidth` | src/embeds.js:30 | The name column is at least 4 wide, fits every name, and is 4 or the length of some name (4 for no heroes) |
| `Embeds.HeaderWidth` | src/embeds.js:32-33 | The header is `nameWidth + 12` characters long |
| `Embeds.RowAlignment` | src/embeds.js:35-40 | A row has the header's length exactly when its rank is at most 99 and its win-rate text at most 6 characters; the padded rank fills columns 0-2 and the padded name starts at column 4 |
| `Embeds.TableShape` | src/embeds.js:32-42 | The table is a fence, the header for the name column width, a rule of `─` exactly as long as the header, one row per hero in input order, and a closing fence |
| `Embeds.TableSplits` | src/embeds.js:42 | The table text splits back into exactly its lines when no name or win-rate text contains a line break |
| `Embeds.BuildRoleEmbed` | src/embeds.js:25-57 | The title counts the heroes given; the description is the table's lines joined by line breaks, opening with the fence line; the colour falls back to `0x607D8B` for unknown roles; the footer reads `Public matches`; a thumbnail (the first hero's image) is set exactly when the list is non-empty |
| `Embeds.RoleEmbedLines` | src/embeds.js:42-50 | When no name or win-rate text has a line break, the embed's description splits back into the fence, header, rule, one row per hero in list order (row `i` on line `3 + i`), and the closing fence |
| `Embeds.BuildOverviewEmbeds` | src/embeds.js:64-72 | One embed per entry, in entry order |
| `Embeds.OverviewOfAllRoles` | src/embeds.js:64-72 | The overview of all roles is eight embeds in role order, each in its role's own colour and titled with that role's ranking size |
| `Embeds.RolesField` | src/embeds.js:160 | `'None'` for no roles (or a single empty role name, which joins to the empty string); otherwise the roles joined by `, ` |
| `Embeds.BuildHeroEmbed` | src/embeds.js:117-123 | The embed is titled with the hero's name and shows its image; the colour is the primary attribute's colour or `0x607D8B`; the roles field is `Embeds.RolesField` of its roles |
| `Embeds.HeroEmbedOfLookup` | src/embeds.js:117-123 | For a looked-up hero: the title is its name and the thumbnail its CDN image; the colour is the fallback exactly when the attribute code is neither a known code nor a label, and each known code gets its label's colour; a hero without roles (missing, empty or `[""]`) shows `None`, otherwise its roles joined by `, ` |

## Left out

- Network and parsing: `fetch`, `res.json()` and the OpenAI client are not modelled. Each response is an input. The completion responses are assumed to carry a first choice.
- `Movies.FetchNowPlayingSpec`: when a page fails, this only states that the call fails. `Promise.all` rejects with whichever failure settles first, so the model reports page 1's failure before page 2's. The benign race where concurrent misses overwrite the slot is also left out.
- `Heroes.AllRolesTop`: takes one hero list for all eight roles. In the source each `getTopHeroesByRole` call reads the cache through its own `fetchHeroStats()`. If the five-minute window ends during the loop, a later role refetches. It may then rank a different list, or the whole call may fail after earlier roles were computed.
- `HeroStatsApi.FetchHeroStats`: a response body is either valid JSON of the expected shape or a failure (`res.json()` rejecting). In the source, a 2xx body that parses to some other JSON value, such as an error object, is cached and served for five minutes; later `filter`/`find` calls on it throw. The model treats such a body as a failure, so it leaves the slot unchanged. For now-playing movies the model matches the source, because `flatMap`/`filter` throw before the cache write.
- The default `count = 5` of `getTopHeroesByRole`, `getAllRolesTop` and `getRandomTopMovies` is not modelled: every model takes `count` explicitly, as every caller in `src/bot.js` passes one.
- `Date.now()` is the `now` parameter, and `Math.random()` is the `rand` stream.
- `Movies.Shuffle`: states only that the result is a permutation. Uniformity is a probabilistic property and is not stated.
- Floating point: win rates, ratings and costs are exact reals.
- Number formatting is not modelled: `toFixed`, `toLocaleString` and the `Math.round` star count. The win-rate text in the table is the `percent` parameter.
- `Heroes.WinRate`: a record whose win counter is missing while it has picks would give `NaN` in the source. Here counters are naturals, and a missing counter is 0.
- `Heroes.LookupHeroQueryInsensitive`: `toLowerCase` is modelled for ASCII letters only, so the claim covers ASCII case changes. Full Unicode case mapping is left out.
- `Movies.Overview`: JavaScript string lengths count UTF-16 code units, while the model counts characters. The 120-character cut and the padding widths differ only for characters outside the Basic Multilingual Plane.
- `Heroes.AttrLabel`: the label table and the colour tables are plain objects in the source, so a key such as `constructor` is found on the object prototype. The model looks up only the listed keys.
- The match summarizer is not part of this model. `src/api.js` exports no `fetchMatchSummary`, although `src/ask.js` imports it. The model passes it in as the `summarize` parameter, a pure function of the match id. Two calls with the same id therefore get the same content. Summarizer calls made before a later argument fails to parse leave no trace in the result.
- `Ask.ToolTurns`: `JSON.parse` is modelled only as "parses to an object, maybe without `match_id`" or "does not parse". Other JSON values are left out: a `null` would make reading `match_id` throw inside the `try`.
- `src/investigate.js`: one completion call behind a catch-all that returns a fixed text with zero usage. There is nothing to shape.
- `src/bot.js`: the Discord client, event routing, replies and the coin flip.
- `src/deploy-commands.js`: the command registration. Its 1..10 cap on `count` is not modelled; `Embeds.RowAlignment` covers up to 99 rows, which includes that cap.
- `logInteraction` and the scratch scripts `test-morgan.js` and `test-usage.js`: logging through an external library.
- `buildMoviesEmbed` and the numeric fields of `buildHeroEmbed`: these are number formatting. Embed timestamps come from the clock. Footers appear only on the role embed.
