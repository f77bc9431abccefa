# Sis, verified

A Dafny model of the logic at the core of Sis, a DNS gateway, with proofs of what that logic keeps in every run.
`dafny verify dfyconfig.toml` checks all of it.

Each stateful component appears twice: as a small specification (a function from state and event to state, over which
whole runs are reasoned about), and as the imperative code, with the same branches and loops on the heap, proved to
refine that specification. Components that are concurrent protocols are transition systems whose runs are all
interleavings of enabled steps. A section under a mutex is one step.

| files | component |
|---|---|
| `StoreKeys`, `StorePayloads`, `StatsBuckets`, `StoreSpec`, `ReadBack`, `Stores`, `Upserts`, `Migrations`, `Transfer` | the JSON and SQLite store backends, what they read back, migrations, import and export |
| `DomainNames`, `DomainTrie`, `Schedules`, `PolicyEngine` | domain patterns, the label trie, weekly schedules, the copy-on-write policy engine |
| `LruSpec`, `DnsCache` | the response cache: a most-recent-first sequence, and the map and linked list that refine it |
| `RateLimiter` | the token-bucket limiter |
| `Pipeline`, `UpstreamPool`, `Gateway` | the query pipeline, the circuit breaker and failover, and all of it behind one request |
| `WorkerPool` | the UDP worker pool, its buffers, and TCP slots |
| `Aggregator`, `TopCounters`, `QueryLog` | rollups, top-N tables, the ring buffer and its subscribers |
| `Ordering`, `DnsMessages`, `Options` | sorting, message types and optional values shared by the rest |

Conventions: instants and durations are integers (nanoseconds in the cache, minutes in schedules, seconds in rollups)
or reals (the limiter); tokens are reals; library behaviour that the source only calls (IDNA, Unicode case and space,
packing and unpacking messages, time zones) is a function or Boolean parameter about which nothing is assumed; an
upstream's answers, a store's failures, cancellation and what other goroutines do meanwhile are parameters too.

Where a natural property is false of the code, the condition under which it holds is proved in both directions:

- Idle pruning is invisible for whole-number rates exactly when `300 * qps >= burst` (`RateLimits.PruningInvisibleIff`).
- Adding, removing and listing an entry tells the two store backends apart exactly when the list id contains a colon
  (`StoreSpec.ColonTellsApart`), removing an entry does exactly when its key does not come apart
  (`StoreSpec.UnsplitRemovalTellsApart`), that is, when the list id is empty or starts with a colon, or the domain is
  empty and the list id has no colon (`StoreSpec.SisRemovalTellsApart`), and putting a statistics row and getting any
  other does exactly when granularity or bucket contains a colon (`StoreSpec.StatsColonTellsApart`).
- The comparator of statistics rows is a strict total order exactly when no two tie and no name that is not a number
  lies, as text, between two numbers the other way round (`StatsBuckets.OrderTotalIff`); on decimal buckets it always
  is.
- A raw row keeps the SQLite tables equal to the decoding of its rows exactly when its payload carries the name its key
  gives it (`Transfer.PutRawMirrorsIff`); the backfill restores that equality exactly when no table row is stale and
  every payload carries its key's name (`Migrations.EnsureMirrorsIff`).
- Opening a database twice is opening it once, whatever order rows are written in, exactly when no two client rows and
  no two session rows share a name and differ (`Migrations.ReopenSettlesIff`); the queries of the backfill name no
  order. The rows of a JSON store are always of that kind (`Migrations.TypedSettled`).
- Opening succeeds exactly when every row decodes, paired keys that do not come apart being passed over
  (`Migrations.RunMigrations`), and import exactly when moreover every paired key comes apart and no key is empty
  (`Transfer.ImportThenExport`); of the pairs the JSON store writes that leaves out exactly list ids and granularities
  with a leading colon (`Transfer.WrittenPairsImportIff`). Which rows of the configuration history decode is a predicate
  about which nothing is assumed.
- After `Close` has returned, the worker pool can still accept a job exactly when a submit is past its first check and
  the queue has room (`WorkerPool.AcceptsAfterCloseIff`); the job never runs (`WorkerPool.NothingRunsAfterClose`). That
  race belongs to the pool used on its own: the server waits for its listeners before it closes the pool, and in that
  order nothing is accepted once done is closed (`WorkerPool.ServerAcceptsNothingAfterDone`).

Conservation of the daily rollups fails when a failed write leaves its row visible, as a failed save of the JSON store
does: `Aggregation.DailyGrowth` gives the surplus exactly, and `Aggregation.KeptFailureCountsTwice` the retry that
makes it.

Uniqueness of upstream ids is not assumed: events reach the first upstream of an id, and the others stay healthy.

## Model

| member | source | states |
|---|---|---|
| `StoreKeys.SisLayoutIsLawful` | internal/store/sqlite.go:1211-1221 | keys of different collections never collide, client and session keys invert, list and stats keys come apart into what they were built from exactly when the first part is colon-free and both are present, and a list's prefix selects exactly the keys that split into it |
| `StoreKeys.NameIffPrefix` | internal/store/verify.go:162-167 | the collection of a key is `name` iff the key starts with `name:`, so `putRawJSON` and `delete` classify keys alike |
| `StoreKeys.RangeIsPrefix` | internal/store/sqlite.go:1475-1498 | `key >= p AND key < p+top` selects exactly the keys with prefix `p` whose next byte is below `top` |
| `StoreKeys.ScanSelectsPrefix` | internal/store/sqlite.go:1482-1482 | over byte strings the scan misses exactly the keys that go on with 0xff; without that byte it is the prefix test |
| `StatsBuckets.CanonicalInjective` | internal/store/sqlite.go:1349-1358 | two decimal texts of one 64-bit number are equal, so decimal buckets never tie |
| `Ordering.LessIsLexicographic` | internal/store/file.go:317-366 | strings are ordered by the first byte that differs, a prefix before what it begins |
| `StatsBuckets.OrderTotalIff` | internal/store/sqlite.go:1349-1358 | the comparator is a strict total order on rows iff no two tie and no non-number straddles two numbers |
| `StatsBuckets.BucketOrderIsTotal` | internal/store/file.go:439-446 | rows with distinct decimal buckets always have one sorted order |
| `StatsBuckets.StraddlingCycles` | internal/store/sqlite.go:1349-1358 | wherever a name straddles two numbers the comparator goes round in a circle |
| `StatsBuckets.MixedBucketsCycle` | internal/store/sqlite.go:1349-1358 | such names exist: 1x straddles 9 and 10 |
| `StoreSpec.SameStep` | internal/store/sqlite.go:635-1323 | every client, session, custom-list and stats operation gives the same result on both backends and keeps their rows equal and the tables the decoding of the kv rows |
| `StoreSpec.BackendsIndistinguishable` | internal/store/file.go:305-448 | for every sequence of such operations the callers of the two backends see the same results, and the mirror holds after it |
| `StoreSpec.SisBackendsIndistinguishable` | internal/store/sqlite.go:635-828 | the same for the actual key layout, from empty stores |
| `StoreSpec.ColonTellsApart` | internal/store/sqlite.go:1211-1221 | add, remove, list on one list id: same results on both backends iff the id has no colon |
| `StoreSpec.UnsplitRemovalTellsApart` | internal/store/sqlite.go:779-812 | on stores holding the same rows, removing an entry gives the same result iff its key comes apart, into this entry or another |
| `StoreSpec.SisRemovalTellsApart` | internal/store/sqlite.go:1211-1221 | with the keys as they are: iff the list id is not empty and has no leading colon, and there is a domain or a colon in the list id |
| `StoreSpec.SharedKeyTellsApart` | internal/store/sqlite.go:1227-1260 | putting one statistics row and getting another gives the same results iff they are the same or have different keys |
| `StoreSpec.StatsColonTellsApart` | internal/store/sqlite.go:1227-1260 | after a put every get agrees on both backends iff granularity and bucket have no colon |
| `StoreSpec.ListedAlike` | internal/store/sqlite.go:1349-1358 | rows that have an order at all are listed in one way only, whatever order they were read in |
| `StoreSpec.DecimalIsOrderable` | internal/store/file.go:429-448 | rows listed under decimal buckets have an order |
| `StoreSpec.SameExpired` | internal/store/sqlite.go:1028-1078 | the keys the JSON store expires are those of the tokens the SQLite store expires |
| `Stores.FileStore.Perform` | internal/store/file.go:203-448 | every operation on the flat map, whatever its arguments, with its error cases; payloads keep the type of their collection, clients and sessions their own names, and colon-free and complete operations keep every payload fitting its key |
| `Stores.FileStore.ListClients` | internal/store/file.go:317-329 | whatever order the map is ranged in, the sorted clients |
| `Stores.FileStore.ListDomains` | internal/store/file.go:357-366 | for any list id, the sorted rests of the keys with its prefix |
| `Stores.FileStore.ListStats` | internal/store/file.go:429-448 | for any granularity, every row under its prefix once, sorted wherever the comparator is a strict weak order |
| `Stores.FileStore.DeleteExpired` | internal/store/file.go:391-407 | removes exactly the sessions with an expiry before now |
| `Stores.SqliteStore.Perform` | internal/store/sqlite.go:834-1323 | every operation on the tables and the kv rows, whatever its arguments; colon-free and complete ones keep the tables the decoding of the rows |
| `Stores.SqliteStore.Delete` | internal/store/sqlite.go:708-828 | deletes both rows, not found only when neither is there, refused when a list key does not split |
| `Stores.SqliteStore.DeleteExpired` | internal/store/sqlite.go:1028-1078 | deletes the rows of exactly the expired tokens from both tables |
| `Stores.RunBoth` | internal/store/store.go:15-31 | a JSON store and a SQLite store run on the same operations show the same, statistics rows in the same order whenever they have one, and stay related |
| `ReadBack.JsonReadsNames` | internal/store/file.go:309-407 | after any operations the JSON store gives for a client key or a session token what was last written under it, nothing once it is deleted or its set expiry is before an expiry run, and otherwise what it gave at first |
| `ReadBack.SqlReadsNames` | internal/store/sqlite.go:834-1078 | the same of the SQLite store |
| `ReadBack.JsonReadsLists` | internal/store/file.go:346-370 | after any operations an entry is listed iff it was listed at first or added and not removed since, entries of one key being one |
| `ReadBack.SqlReadsLists` | internal/store/sqlite.go:1134-1225 | the same of the SQLite store, which takes an entry out when the key of a removal comes apart into it |
| `ReadBack.JsonReadsStats` | internal/store/file.go:412-427 | a get gives the counters last put under its key, with the bucket they were put for |
| `ReadBack.SqlReadsStats` | internal/store/sqlite.go:1227-1260 | the same by granularity and bucket |
| `ReadBack.OwnKey` | internal/store/sqlite.go:1211-1221 | with colon-free first parts that is the entry or slot itself and no other |
| `ReadBack.JsonListsWhatItGets` | internal/store/file.go:309-329 | a listing holds exactly the clients that can be got |
| `ReadBack.SqlListsWhatItGets` | internal/store/sqlite.go:834-874 | the same of the SQLite store |
| `ReadBack.JsonStatsAreGot` | internal/store/file.go:421-448 | a granularity lists exactly the rows that can be got for it |
| `ReadBack.SqlStatsAreGot` | internal/store/sqlite.go:1245-1287 | the same of the SQLite store |
| `ReadBack.JsonClientsRise` | internal/store/file.go:317-329 | clients are listed in rising order of keys |
| `ReadBack.SqlClientsRise` | internal/store/sqlite.go:851-874 | the same of the SQLite store |
| `ReadBack.DecimalRises` | internal/store/sqlite.go:1349-1358 | rows under decimal buckets are listed in rising order of numbers |
| `ReadBack.JsonReports` | internal/store/file.go:305-427 | a write reports a missing part or success, a delete whether there was anything to delete |
| `ReadBack.SqlReports` | internal/store/sqlite.go:708-1260 | the same of the SQLite store wherever its tables mirror its rows |
| `Transfer.PutRawKeeps` | internal/store/sqlite.go:635-706 | a raw row whose payload fits its key is taken and keeps the mirror |
| `Transfer.PutRawMirrorsIff` | internal/store/sqlite.go:635-706 | a raw row that is taken keeps the mirror iff its payload carries the name of its key |
| `Migrations.EnsureSchema` | internal/store/sqlite.go:90-107 | succeeds iff every row decodes; then the rows stay, tags are fixed and each table has the decoded rows of its collection written over it, which mirrors the rows iff no table row was stale and every payload carries its key's name; where no two rows share a name and differ there is one result |
| `Migrations.EnsureCollectionColumn` | internal/store/sqlite.go:109-158 | every row tagged unknown or empty gets the collection of its key, no other changes, and keys and values stay |
| `Migrations.BackfillClients` | internal/store/sqlite.go:161-214 | fails before any write iff a client row does not decode; otherwise every client is written under its own or its key's name, one of those that share a name is kept, and the rest of the table stays |
| `Migrations.BackfillSessions` | internal/store/sqlite.go:238-291 | the same for sessions |
| `Migrations.BackfillLists` | internal/store/sqlite.go:310-358 | adds exactly the entries whose keys split |
| `Migrations.BackfillStats` | internal/store/sqlite.go:376-432 | fails before any write iff a row whose key splits does not decode; otherwise those rows are written over the table, each slot with the counters of its own row |
| `Migrations.EnsureMirrorsIff` | internal/store/sqlite.go:109-433 | for any rows that decode and tables keyed by their own names, the filled tables mirror the rows iff no table row was stale and every payload carries its key's name |
| `Migrations.EnsureIsIdentity` | internal/store/sqlite.go:90-107 | on a database whose tables mirror its rows and whose tags are right the backfill changes nothing |
| `Migrations.BackfillSettlesIff` | internal/store/sqlite.go:90-107 | whatever order rows are written in, a second backfill changes nothing, iff no two client rows and no two session rows share a name and differ; stale table rows do not matter |
| `Upserts.UpsertAll` | internal/store/sqlite.go:204-214 | whatever order pending rows are written in, each name ends with one of its rows and the rest of the table stays |
| `Upserts.WrittenTwice` | internal/store/sqlite.go:204-214 | writing pending rows over a table twice is one way of writing them once, and changes nothing more when rows that share a name are equal |
| `Migrations.SelectedByKey` | internal/store/sqlite.go:169-169 | on rows tagged as the store tags them, selecting by collection tag or key range selects exactly the rows whose key is of the collection |
| `Migrations.StepKeepsTags` | internal/store/sqlite.go:834-1323 | every operation keeps the rows tagged that way |
| `Migrations.MigrationsEnd` | internal/store/sqlite.go:68-88 | from any older version the chain of migrations and stamps equals one backfill and the current version |
| `Migrations.RunMigrations` | internal/store/sqlite.go:68-88 | opening succeeds iff every row decodes; then no row changes but a version that was behind, and each table has the decoded rows written over it; where no two rows share a name and differ the loop computes the chain of migrations |
| `Migrations.OpeningBackfills` | internal/store/file.go:100-189 | the chain of migrations from any version is one backfill with the version brought up to date; the code computes it where no two rows share a name and differ |
| `Migrations.ReopenSettlesIff` | internal/store/sqlite.go:68-107 | for a database of any version: opening it again changes nothing, whatever order rows are written in, iff no two client rows and no two session rows share a name and differ |
| `Migrations.OpenAgain` | internal/store/sqlite.go:68-107 | opening twice succeeds iff opening once does, the second time changes no row, and nothing at all where no two rows share a name and differ |
| `Migrations.TypedSettled` | internal/store/file.go:203-448 | whatever was done to a JSON store, no two of its client rows or session rows share a name and differ |
| `Transfer.Import` | internal/store/transfer.go:21-48 | succeeds iff every row decodes and no key is empty; then, whatever order they were written in, the database holds the rows, its tables are what a backfill from them leaves, and they mirror the rows iff every payload carries its key's name |
| `Transfer.ImportedStays` | internal/store/transfer.go:21-48 | opening an imported database leaves its tables as they are when no two rows share a name and differ |
| `Transfer.Export` | internal/store/transfer.go:50-71 | succeeds iff the database opens; returns every row the scan of the empty prefix selects |
| `Transfer.ImportThenExport` | internal/store/transfer.go:21-90 | for any rows: refused iff one does not decode or a key is empty; otherwise they come back equal, but for a schema version row that was behind or missing |
| `Transfer.WrittenPairsImportIff` | internal/store/sqlite.go:662-667 | a list entry or statistics row as the JSON store writes it imports iff its list id or granularity does not start with a colon |
| `Transfer.ImportedAnswersAlike` | internal/store/transfer.go:41-47 | an imported database answers every further operation as the JSON store it came from |
| `Transfer.ImportThenRun` | internal/store/transfer.go:12-19 | the same of the stores on the heap: import what a JSON store holds, run both, and they show the same |
| `DomainNames.NormalizeIdempotent` | internal/policy/domains.go:195-227 | for any ToASCII, normalising twice is normalising once |
| `DomainNames.SpacesAround` | internal/policy/domains.go:195-199 | space around a pattern does not change its normal form |
| `DomainNames.OneDotAtTheEnd` | internal/policy/domains.go:195-205 | one dot at the end does not change it either, and a second one makes the pattern invalid |
| `DomainNames.AsciiNormalizes` | internal/policy/domains.go:195-227 | a name in ASCII that IDNA leaves alone normalises to its lower-case form iff that has valid labels and at most 253 characters |
| `DomainNames.AsciiWildcardNormalizes` | internal/policy/domains.go:195-227 | the same under a wildcard |
| `DomainNames.NormalizedIsCanonical` | internal/policy/domains.go:195-263 | a normalised name is an optional wildcard and valid labels within the limits of section 2.3.4 of RFC 1035 |
| `DomainNames.LabelsRoundTrip` | internal/policy/domains.go:182-240 | domainFromLabels inverts labelsFor up to the wildcard |
| `DomainNames.DomainFromLabelsInjective` | internal/policy/domains.go:182-191 | different label paths spell different domains |
| `DomainNames.ComputeLabels` | internal/policy/domains.go:229-240 | the split and in-place reversal compute the labels |
| `DomainTrie.Domains.AddPath` | internal/policy/domains.go:57-75 | the set gains exactly the path; the result says whether it was new; size is the cardinality |
| `DomainTrie.Domains.MatchPath` | internal/policy/domains.go:86-101 | true iff some stored path is a prefix of the labels, dead branches or not |
| `DomainTrie.Domains.DeletePath` | internal/policy/domains.go:112-129 | the set loses exactly the path; the result says whether it was there |
| `DomainTrie.Domains.Add` | internal/policy/domains.go:49-75 | the same from a domain string, false when it does not normalise |
| `DomainTrie.Domains.Delete` | internal/policy/domains.go:104-129 | the same for removal |
| `DomainTrie.Domains.Match` | internal/policy/domains.go:78-101 | matches iff a stored suffix covers the domain |
| `DomainTrie.MatchingIsSuffix` | internal/policy/domains.go:78-101 | a name is covered iff, normalised, it is a stored name or ends with a dot and a stored name |
| `DomainTrie.Domains.Clone` | internal/policy/domains.go:23-46 | a copy with the same paths that shares no node |
| `DomainTrie.Domains.Entries` | internal/policy/domains.go:140-180 | lists stored domains that contain the query, each once; all of them when they fit the limit, otherwise exactly limit |
| `DomainTrie.ContainsIffOccurs` | internal/policy/domains.go:140-165 | a name is wanted by a query iff the query occurs somewhere in it |
| `DomainTrie.ListingIsExact` | internal/policy/domains.go:140-151 | distinct names that are complete below the limit are all the wanted ones when they fit it, and exactly limit otherwise |
| `DomainTrie.ChangedIffNew` | internal/policy/domains.go:69-74 | add reports true iff the set changed, delete likewise |
| `DomainTrie.AddedWellNamed` | internal/policy/domains.go:49-75 | every stored path is made of valid labels |
| `DomainTrie.AddedNormalised` | internal/policy/domains.go:49-75 | every stored path spells a domain that normalisation leaves as it is |
| `DomainTrie.Replay` | internal/policy/domains.go:23-137 | any sequence of creations, adds, deletes and clones over any number of tries: each trie holds its own set, whatever happens to the others |
| `Schedules.ActiveIffInWindow` | internal/policy/group.go:117-135 | active iff the instant lies in the window started by some selected day, wrapping past midnight, and that day is unique |
| `Schedules.WindowDayIsUnique` | internal/policy/group.go:124-134 | at most one day's window holds an instant |
| `Schedules.ActiveMinutesPerWeek` | internal/policy/group.go:117-135 | any seven days in a row hold (number of days) times (length) active minutes |
| `Schedules.ParseDays` | internal/policy/group.go:137-169 | the parsed set has exactly the named days; unknown tokens and an empty set are errors |
| `Schedules.TokensMean` | internal/policy/group.go:137-169 | a token is the three-letter name of a day, or stands for every day, for Monday to Friday, or for Saturday and Sunday; any other is unknown |
| `Schedules.CompileSchedule` | internal/policy/group.go:97-114 | compiles iff days and both times parse, and then has the name, the lists and both times as written and exactly the named days |
| `Schedules.CompileSchedules` | internal/policy/group.go:81-87 | every schedule in order, or nothing when one does not compile |
| `PolicyEngine.FirstFiringIsFirst` | internal/policy/engine.go:205-223 | the decision names the first rule that fires, and allows iff none does |
| `PolicyEngine.DecideDecides` | internal/policy/engine.go:198-229 | on the sets themselves: allowed if global, custom or group allowlist covers the name; else blocked by the first base list that does, else by the first list of the first active schedule with one, each with its reason, else by the custom list, else allowed |
| `PolicyEngine.Evaluate` | internal/policy/engine.go:198-229 | the tries give that decision: any of three allow sets wins, then base lists in order, then active schedules in order, then the custom list |
| `PolicyEngine.CompileGroups` | internal/policy/group.go:65-94 | compiles iff every group is named, every allow domain is new and valid, every schedule parses and there is a default group; later groups of a name win |
| `PolicyEngine.ConfigCompilesIff` | internal/policy/group.go:65-114 | a configuration compiles iff every group has a name, a compiling allowlist and schedules whose days and times parse, one is the default, and allowlist and zone compile |
| `PolicyEngine.LastGroupStands` | internal/policy/group.go:88-88 | the last group of a name is compiled under it, with its own lists, schedules and allowlist |
| `PolicyEngine.AllNewIff` | internal/policy/group.go:76-80 | a list of domains compiles iff each normalises and no two to the same labels |
| `PolicyEngine.ListCovers` | internal/policy/group.go:76-80 | its set is exactly the paths of its strings |
| `PolicyEngine.EnabledStays` | internal/policy/engine.go:166-195 | a reload keeps exactly the lists that some entry of their id enables |
| `PolicyEngine.Engine.For` | internal/policy/engine.go:74-91 | the snapshot stands for the sets in force, falling back to the default group |
| `PolicyEngine.Engine.ReplaceList` | internal/policy/engine.go:94-105 | exactly one list changes |
| `PolicyEngine.Engine.AddCustomBlock` | internal/policy/engine.go:122-131 | the custom set gains the domain; reports whether it changed |
| `PolicyEngine.Engine.RemoveCustomBlock` | internal/policy/engine.go:134-141 | the custom set loses the domain |
| `PolicyEngine.Engine.AddCustomAllow` | internal/policy/engine.go:144-153 | the custom allow set gains the domain; reports whether it changed |
| `PolicyEngine.Engine.RemoveCustomAllow` | internal/policy/engine.go:156-163 | the custom allow set loses the domain |
| `PolicyEngine.Engine.ReloadConfig` | internal/policy/engine.go:166-195 | an error changes nothing; otherwise groups, allowlist and zone are replaced and lists no longer enabled are dropped; custom lists always stay |
| `PolicyEngine.Engine.RemoveDisabledLists` | internal/policy/engine.go:231-258 | keeps exactly the lists that are enabled |
| `PolicyEngine.NewEngine` | internal/policy/engine.go:41-71 | an engine iff the configuration compiles, with empty lists |
| `PolicyEngine.UpdateAfterSnapshot` | internal/policy/engine.go:74-195 | whatever updates follow, a snapshot still stands for the sets it stood for |
| `PolicyEngine.EvaluateLater` | internal/policy/engine.go:74-229 | a snapshot evaluated after any updates decides so on the sets as they stood when it was taken, by the client's group, or the default one when there is no such group |
| `PolicyEngine.DecideForDecides` | internal/policy/engine.go:74-97 | the declarative decision for a client is the one above for the group it is resolved to, or else the default group, and allowed when there is neither |
| `LruSpec.RunKeepsInv` | internal/dns/cache.go:64-163 | in every run keys are unique and the size is within the limit |
| `LruSpec.RunKeepsRecency` | internal/dns/cache.go:97-132 | the order of entries is the order of their last put or hit |
| `LruSpec.VictimIsLeastRecent` | internal/dns/cache.go:130-163 | whatever is evicted was touched before everything kept, and no more is evicted than must be |
| `LruSpec.UncacheableNeverStored` | internal/dns/cache.go:112-115 | a response is stored iff it is positive or negative data, as in section 2 of RFC 2308, and packs |
| `LruSpec.EffectiveLasts` | internal/dns/cache.go:176-198 | NXDOMAIN and NODATA last the negative TTL; data lasts its smallest TTL, but not over the maximum nor under the minimum, and the maximum where the two contradict each other |
| `LruSpec.DefaultLimits` | internal/dns/cache.go:44-61 | options that are not positive become 100000 entries, one minute, 24 hours and one hour |
| `LruSpec.LiveEntryHits` | internal/dns/cache.go:64-99 | a lookup hits iff an unexpired entry of the key is there and unpacks |
| `LruSpec.LeavesOnlyBy` | internal/dns/cache.go:64-163 | an entry leaves only by a lookup that finds it expired or broken, an answer stored over it, a flush, or to make room in a full cache |
| `LruSpec.EntryCameFrom` | internal/dns/cache.go:120-129 | every entry is the latest stored put of its key and expires as long after it as the answer lasts by the limits then |
| `LruSpec.HitIsSound` | internal/dns/cache.go:76-98 | a hit serves such an entry before it expires, each record's TTL the smaller of its own and max(1, whole seconds left), for lifetimes below 2^32 seconds |
| `LruSpec.TTLsNeverRise` | internal/dns/cache.go:90-98 | between two hits on one entry under a monotone clock no TTL rises |
| `DnsCache.Cache.constructor` | internal/dns/cache.go:44-61 | an empty cache with the defaults |
| `DnsCache.Cache.Get` | internal/dns/cache.go:64-99 | map and list stay in agreement and the new state and reply are those of the sequence |
| `DnsCache.Cache.Put` | internal/dns/cache.go:102-133 | map and list refine the put of the sequence: a cacheable answer that packs ends in front, to expire as long from now as it lasts, any other changes nothing |
| `DnsCache.Cache.EvictExcess` | internal/dns/cache.go:160-162 | the eviction loop ends with the sequence cut to the limit |
| `DnsCache.Cache.Flush` | internal/dns/cache.go:136-145 | empties map and list |
| `DnsCache.Cache.Reconfigure` | internal/dns/cache.go:148-163 | new limits, entries kept up to them |
| `DnsCache.Cache.Remove` | internal/dns/cache.go:200-207 | removes one element from map and list; none when there is none |
| `DnsCache.TTLFor` | internal/dns/cache.go:176-198 | the negative TTL for NXDOMAIN and NODATA, the smallest answer TTL within the limits for data, zero for anything else |
| `DnsCache.SetTTL` | internal/dns/cache.go:233-242 | caps every record but OPT in place |
| `RateLimits.BucketCountBounded` | internal/dns/ratelimit.go:80-85 | after every call of every run at most maxBuckets buckets |
| `RateLimits.EvictionIsFair` | internal/dns/ratelimit.go:108-127 | trimming evicts only buckets seen no later than any kept one, never the caller's |
| `RateLimits.AllowedBound` | internal/dns/ratelimit.go:86-96 | within one bucket's life, calls i..k with k allowed let through at most burst + qps * (t_k - t_i), clock readings in any order |
| `RateLimits.SpacedNeverRefused` | internal/dns/ratelimit.go:56-97 | under a monotone clock a client spacing its calls 1/qps apart is never refused, whatever is pruned or evicted |
| `RateLimits.PruningInvisible` | internal/dns/ratelimit.go:99-106 | with a monotone clock, 300 * qps >= burst and at most maxBuckets clients, every decision is that of a limiter that never prunes |
| `RateLimits.PruningInvisibleIff` | internal/dns/ratelimit.go:99-106 | for whole-number rates, exactly then |
| `RateLimits.PruningShows` | internal/dns/ratelimit.go:101-103 | a run on which pruning shows when 300 * qps < burst |
| `RateLimits.RateLimiter.Allow` | internal/dns/ratelimit.go:56-97 | one step of the run relation; when a minute has passed since the last pruning, no bucket unused for five minutes is left |
| `RateLimits.RateLimiter.TrimLocked` | internal/dns/ratelimit.go:108-127 | cuts to maxBuckets, oldest seen first, sparing the exempt key |
| `RateLimits.RateLimiter.PruneLocked` | internal/dns/ratelimit.go:99-106 | drops exactly the idle buckets, then trims |
| `QueryPipeline.QueriesAddUp` | internal/dns/pipeline.go:117-171 | in every interleaving, queries = early rejections + local answers + blocked + hits + misses + those still in flight, and every arrival is a query, rate-limited or empty |
| `QueryPipeline.CacheRepliesComeFromUpstream` | internal/dns/pipeline.go:151-171 | in every interleaving, a reply from the cache is an upstream's NOERROR or NXDOMAIN answer to a message that asked for the same canonical name, type and class, unexpired by the limits at its put |
| `QueryPipeline.RunKeepsKeyed` | internal/dns/pipeline.go:142-160 | in every interleaving each lookup, forward and cache hit goes by the canonical name, type and class of its message's first question |
| `QueryPipeline.BlockedStaysOut` | internal/dns/pipeline.go:143-150 | a query the policy blocks is neither looked up in the cache nor forwarded |
| `QueryPipeline.ReplyIsFinal` | internal/dns/pipeline.go:106-171 | a reply, once given, is never replaced |
| `QueryPipeline.EveryRun` | internal/dns/pipeline.go:80-94 | both the balance of the counters and the origin of cached replies hold in every run of a new pipeline |
| `QueryPipeline.Pipeline.Handle` | internal/dns/pipeline.go:106-171 | one request on the heap cache and counters takes the steps of a run of the system and is told what it should be: a failure, a refusal, NOTIMP, FORMERR, REFUSED, a special answer, the block page, an answer to its own question from the cache, the upstream's answer, or SERVFAIL |
| `Gateway.Judge` | internal/dns/pipeline.go:143-145 | a snapshot of the engine, evaluated, gives the decision on its current sets |
| `Gateway.Serve` | internal/dns/pipeline.go:106-171 | with the limiter, the engine, the cache and the pool behind it: a query is blocked iff it gets to the policy and the engine's sets block its canonical name, and then gets the block page with cache and pool untouched; the limiter takes one step; the pool, if asked, answers as Forward does, and its answer is the reply, or a server failure when it has none; a query with another opcode, no question or another class is declined, and a reply from the cache is an upstream's answer to the same name, type and class |
| `UpstreamPool.HealthIsStreak` | internal/upstream/pool.go:203-233 | in every interleaving an upstream is healthy iff its consecutive failures since its last success or configuration are below its threshold; repeated ids stay healthy |
| `UpstreamPool.TripsWhenConfigured` | internal/upstream/pool.go:50-58 | the first upstream of an id is healthy iff it failed fewer times in a row than configured, or than three |
| `UpstreamPool.IdsOneMore` | internal/upstream/pool.go:74-90 | a snapshot lists the upstreams in or out of service in configuration order |
| `UpstreamPool.ReportedHealthIsStreak` | internal/upstream/pool.go:266-278 | the health reported for an id is that of the first upstream with it |
| `UpstreamPool.Pool.Forward` | internal/upstream/pool.go:74-120 | tries the healthy snapshot in order for at most three rounds under any interference, and all three when nothing answers or cancels; returns the first success, lists every attempt with its outcome and the health read after it |
| `UpstreamPool.FailedAttemptsAddUp` | internal/upstream/pool.go:99-112 | undisturbed failed attempts add up in each streak |
| `UpstreamPool.ProbesOnlyHeal` | internal/upstream/pool.go:169-195 | undisturbed probes clear the streaks of those that answered and change no other |
| `UpstreamPool.Pool.Replace` | internal/upstream/pool.go:43-70 | all upstreams new and healthy, threshold 3 unless configured |
| `UpstreamPool.Pool.MarkSuccess` | internal/upstream/pool.go:203-216 | one success of the first upstream with the id |
| `UpstreamPool.Pool.MarkFailure` | internal/upstream/pool.go:218-233 | one failure of the first upstream with the id |
| `UpstreamPool.Pool.Test` | internal/upstream/pool.go:123-146 | unknown ids change nothing; otherwise one success or failure |
| `UpstreamPool.Pool.ProbeUnhealthy` | internal/upstream/pool.go:169-195 | one success for each unhealthy upstream that answers, nothing for the others |
| `UpstreamPool.Pool.IsHealthy` | internal/upstream/pool.go:266-278 | the health of the first upstream with the id |
| `WorkerPool.RunKeepsInv` | internal/dns/workers.go:15-90 | in every interleaving each buffer has exactly one owner, jobs start in order of acceptance, and nothing is running once Close has returned |
| `WorkerPool.StepMovesBuffers` | internal/dns/server.go:199-216 | only an allocation makes a buffer; every other step hands buffers over |
| `WorkerPool.NoSharing` | internal/dns/server.go:273-289 | no two readers, queued or running jobs share a buffer, nor hold a pooled or dropped one |
| `WorkerPool.SomeOwner` | internal/dns/server.go:273-289 | no buffer is lost |
| `WorkerPool.StartedAtMostOnce` | internal/dns/workers.go:26-47 | an accepted job starts at most once, in order |
| `WorkerPool.NothingRunsAfterClose` | internal/dns/workers.go:82-90 | once Close has returned nothing starts again |
| `WorkerPool.OnlyRacingSubmitsAccepted` | internal/dns/workers.go:51-80 | after done is closed at most the submits in flight are accepted |
| `WorkerPool.AcceptsAfterCloseIff` | internal/dns/workers.go:51-90 | after Close has returned another job can be accepted iff a submit is in flight and the queue has room |
| `WorkerPool.ServerAcceptsNothingAfterDone` | internal/dns/server.go:167-190 | with the pool closed only after the listeners have ended, nothing is accepted once done is closed |
| `WorkerPool.AcceptedNeverRun` | internal/dns/workers.go:59-79 | the pool on its own reaches such a state: a run whose last submit is accepted after Close has returned and never starts |
| `WorkerPool.TcpRunKeepsTokens` | internal/dns/server.go:291-366 | in every run live handlers equal tokens held, never more than the capacity, and every connection is handled, live or refused |
| `WorkerPool.RefusedIffFull` | internal/dns/server.go:346-356 | a connection is refused iff as many handlers as slots are live |
| `Aggregation.DayRow` | internal/stats/aggregator.go:85-87 | a daily row grows by exactly the deltas of its day's flushes that wrote it |
| `Aggregation.HourRows` | internal/stats/aggregator.go:82-84 | a day's 24 hourly rows grow by exactly the deltas of its flushes that wrote their hour |
| `Aggregation.HoursExceedDay` | internal/stats/aggregator.go:79-91 | under any failures the hourly rows grow more than the daily row by exactly the flushes that wrote the hour and lost the day |
| `Aggregation.HoursEqualDay` | internal/stats/aggregator.go:79-91 | they grow alike when no flush fails |
| `Aggregation.DailyGrowth` | internal/stats/aggregator.go:47-98 | under any failures the daily rows grow by the last flushed snapshot plus what was kept while reported lost |
| `Aggregation.DailyConservation` | internal/stats/aggregator.go:47-98 | with failed writes that change nothing, by exactly the last flushed snapshot |
| `Aggregation.KeptFailureCountsTwice` | internal/store/file.go:213-228 | a failed write that stays visible is counted twice once retried |
| `Aggregation.Aggregator.FlushOnce` | internal/stats/aggregator.go:47-91 | one flush is one step, and succeeds iff every store call does |
| `Aggregation.FlushWritesGrowth` | internal/stats/aggregator.go:47-91 | a flush that nothing disturbs writes what each counter grew by, or all of it after a restart, into the row of its minute and adds it to the rows of its hour and day |
| `Aggregation.Aggregator.AddRollup` | internal/stats/aggregator.go:100-116 | adds the delta to the stored row, in whatever order the counters are ranged |
| `TopCounters.PruningKeepsRanking` | internal/stats/counters.go:250-267 | the ranking after a prune is the head of the ranking before |
| `TopCounters.TopSurvivesPrune` | internal/stats/counters.go:219-267 | every answer of topN is the same before and after a prune |
| `TopCounters.EvictionOrder` | internal/stats/counters.go:258-263 | sorting for eviction gives the ranking backwards |
| `TopCounters.TableBounds` | internal/stats/counters.go:239-248 | after any adds at most 10000 keys and no count above the number of adds |
| `TopCounters.ExactWhenFewKeys` | internal/stats/counters.go:239-248 | with at most 10000 keys every count is exact |
| `TopCounters.TopN` | internal/stats/counters.go:219-237 | entries of the table in falling count and rising key; no other key has a higher count, or the same and an earlier key; as many as asked for, or ten when out of range |
| `TopCounters.Prune` | internal/stats/counters.go:250-267 | keeps the target number of items as they were, and no dropped key has a higher count than a kept one, or the same and an earlier key |
| `TopCounters.IncrementTopCounter` | internal/stats/counters.go:239-248 | one more for a known key or for a new one while there are fewer than 10000; otherwise the best 8000 and the new key |
| `TopCounters.Counters.AddDomain` | internal/stats/counters.go:128-138 | one add to the tables concerned, none for an empty name |
| `QueryLog.Ring.Publish` | internal/log/fanout.go:50-63 | the ring stays the tail of what was published |
| `QueryLog.Ring.Snapshot` | internal/log/fanout.go:65-80 | the last min(count, capacity) entries in order |
| `QueryLog.Ring.Recent` | internal/log/query.go:139-165 | the newest matches of the snapshot, oldest first, as many as asked for, or 100 when out of range |
| `QueryLog.MatchesAreSelected` | internal/log/query.go:148-160 | the matches are exactly the entries the filter selects |
| `QueryLog.MatchesOneMore` | internal/log/query.go:148-160 | the matches are in order the entries with the client as key, address or name, with the part of the name, and blocked or not as asked |
| `QueryLog.RunKeepsOrder` | internal/log/fanout.go:88-102 | in every interleaving of sends and receives, entries are kept in order, none twice, and the newest is kept |
| `QueryLog.NewestNeverDropped` | internal/log/fanout.go:93-101 | the third select always finds room, so a drop is never the entry being sent |
| `QueryLog.ReceivedIsSubsequence` | internal/log/fanout.go:50-63 | received plus buffered entries are an ordered subsequence of those published |

## Left out

- Floating-point rounding in the limiter, daylight-saving jumps in schedules, and wrap-around of 64-bit counters.
- Wire packing and unpacking, SQL text, JSON and YAML encoding, and IDNA: parameters, values and maps stand for them.
- Invalid UTF-8 in domain patterns: strings are sequences of characters.
- Nil receivers and zero-value structs that no constructor makes.
- Closed stores, and errors of the file system and the database engine other than a failed statistics write.
- The config_history table and the order of its listing: confhist rows are kv rows of no table here, and which of them decode is a predicate about which nothing is assumed.
- Rows whose collection tag names another collection than their key, which no version of the store writes: the backfill selects by key here.
- The difference between a nil and an empty list in the results of the stores.
- Rows of one minute in the aggregator: two flushes in one minute overwrite each other.
- Ordering for subscribers that ask for a replay: their backlog is sent after the lock is released.
- The blocking form of Submit and a nil worker pool, which the server does not use.
- The order in which Entries lists domains.
- The text of clock times and names of time zones: functions about which nothing is assumed.
- QueryPipeline.Pipeline.Handle: does not model per-upstream statistics (recordUpstreamAttempts), latency histograms or the query log's persistence and privacy modes, which no reply depends on.
- Synthetic answers and special names in the pipeline: functions about which nothing is assumed.
- Stripping of the EDNS client subnet from forwarded queries: messages carry no EDNS options here.
- HTTP handlers, password hashing, the command line, backups, metrics, tracing, blocklist fetching, ARP and DoH transport, and the web UI.
