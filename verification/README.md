# Nostradamus API: a verified model

Nostradamus is a Go service for sensor readings. It keeps Arroyo streaming pipelines alive for the
Kafka topics it manages, answers windowed aggregates over day-partitioned Scylla tables through a
cache, keeps recent readings in Valkey sorted sets, and registers fields and sensors in Scylla.
This project models those four parts in Dafny and proves what they guarantee, over every input and
every interleaving, and where they do not.

The command for the whole project is `dafny verify dfyconfig.toml`.

## How the model is built

Code that changes state is imperative here too: `Server`, `ArroyoClient`, `Supervisor`, `Watcher`,
`Store`, `Cache`, `App`, `Valkey` and `MetaStore` are classes whose methods follow the Go methods
branch by branch. Each method is proved against a function of the old state, and the theorems are
about those functions. Concurrency is modelled by transition systems whose steps are single remote
requests; lemmas named `...IsARun`, `UndisturbedMiss` and `AloneIsRegisterSensor` show that a
procedure left undisturbed takes the machine exactly where the method goes.

Functions shared by a method and its theorems are also fixed in plain terms, without their own
names: milliseconds, literal prefixes, query texts, job states and durations (lemmas named
`...Exactly`, `...Text`, `DayIsUtc`, `ReadCounts`, `ScanServes`, `StoredForAnHour`,
`ServedFiveMinutes`, `RegisteredIsListed`).

Library behaviour enters as parameters with laws (`Lawful` for keys and JSON, `Faithful` for the
texts and scores of a sorted set); `LawfulExists` and `FaithfulExists` show that the laws can be met.

Every remote request has a `Fate`: delivered, dropped without effect, or carried out with the reply
lost. An HTTP error page that decodes to an empty list counts as a failed listing; the loops treat
both alike.

| module | part |
|---|---|
| `Arroyo`, `Watcher`, `Supervisor` | the server, the flow for a new topic, the scan, the restart pass |
| `ControlLoops`, `ControlLoopTheorems`, `ControlLoopLimits`, `ControlLoopLosses`, `ControlLoopPasses` | both loops interleaved on one server |
| `Readings`, `Aggregates`, `AggregateHandler` | day-by-day reads, the fold, the endpoint with its cache |
| `AggregateCache`, `AggregateCacheTrace`, `AggregateCacheTheorems`, `AggregateCacheLimits`, `AggregateCacheTypes` | concurrent requests over changing tables |
| `RecentCache` | sorted sets and timestamps |
| `Decimal`, `Registry`, `RegistryRuns`, `RegistryTheorems`, `FieldRuns` | the sensor type column, registration, concurrent registrations of sensors and fields |
| `Common` | shared vocabulary |

## What was found

- A managed topic is in exactly one place (server, in flight, lost) in every interleaving, on a
  server that accepts duplicate names as well as on one that rejects them, if the watcher's seed
  listing succeeds before the first deletion, no pipeline creation takes effect while reporting
  failure, and the operator's route is not used for managed names. Each of these four conditions is
  needed: for every managed topic there is a run that ends with two definitions once it is dropped.
- A pipeline whose recreate request failed after a successful delete stays lost, because its topic
  stays known. Under the same conditions a managed topic is lost exactly when a recreate of it is dropped or a deletion of it
  goes through unreported, at most once in a run, and never because a recreate meets a duplicate.
- The code's retry of a flow converges on a server that rejects duplicate names. On one that accepts
  them, every attempt that took effect leaves its own pipeline.
- `GetReadings` issues one query per day, so a window that reaches back over midnight can be read
  torn: the cached aggregate may be the summary of no state the tables were ever in. It is the
  summary of one state, in all runs, exactly when the window does not begin on an earlier UTC day.
  With rows only ever added, a torn read still lies between the states at the start and the end of
  the request.
- Reads are complete exactly for tables whose rows sit in the bucket of their own UTC day. The
  producer supplies both columns, so this is a condition on the data.
- The cache key omits the sensor type. In all runs over a set of queries, hits answer the query
  asked if and only if no two of these queries share sensor and window but differ in type (queries
  that can never be cached, for an unparsable sensor or an inverted window, do no harm).
- Valkey's sorted set has the value as its member, so a repeated value loses its earlier reading.
  Of the readings the key's expiry has left, nothing is lost exactly if no value was stored at two
  different milliseconds; then a fetch of the last n gives the newest n readings. `FetchLast` with
  n = 0 returns the whole set.
- Whether a registration is turned away as a duplicate is decided the moment it begins. Two
  registrations of one free name both insert if and only if the second begins before the first one's
  first insert; without such an overlap names stay unique. Sensors and fields alike. This is for
  listings that come in one page: a later page could still show a row put after the call began.
- A hit is never staler than TTL + delay, in its data as well as in its timestamp: every version it was
  read from was current between the request that computed it and that request's answer.

## Model

| member | source | states |
|---|---|---|
| Arroyo.Server.PostPipeline | internal/arroyo/pipelines.go:117-142 | Creating a pipeline: a rejecting server leaves its state alone for a taken name, otherwise one definition is appended under a never-used id; a dropped request does nothing, a lost reply is reported as failure |
| Arroyo.Server.PostTable | internal/arroyo/connection_table.go:11-41 | Creating a Kafka table adds its name; a rejecting server answers "already exists" for a known one |
| Arroyo.Server.DeletePipeline | internal/arroyo/arroyo.go:110-124 | Deleting takes away exactly the pipeline with the id, and success is reported only when it was there and the reply arrived |
| Arroyo.ArroyoClient.RestartPipeline | internal/arroyo/arroyo.go:89-164 | The restart, with its four exits, takes the server to the state of the three-request function `Restart` |
| Arroyo.RestartOutcomes | internal/arroyo/arroyo.go:89-164 | Each combination of request fates leaves one of three servers (unchanged, without the one pipeline, or with it replaced in normal form under a fresh id) and gives one of the four exits: fetch, delete or recreate failure for the first request without a reply, success if all replies arrive; its own deletion never makes the recreate a duplicate |
| Arroyo.RestartGone | internal/arroyo/arroyo.go:91-103 | A pipeline that is gone cannot be fetched and nothing else is tried |
| Arroyo.RestartIdempotent | internal/arroyo/arroyo.go:128-146 | The recreated definition keeps name and query, has parallelism kept or 1 and checkpoint interval 60 s, and recreating it again changes nothing |
| Arroyo.RestartTimesIsOnce | internal/arroyo/arroyo.go:89-164 | k >= 1 successful restarts in a row, each under the id the last one gave, all succeed and leave the server of one restart but for the id: the others untouched, the replacement in normal form under the k-th fresh id |
| Arroyo.DeleteFrees | internal/arroyo/arroyo.go:110-148 | Deletion keeps ids and (on a rejecting server) names unique, and frees the name for the recreate |
| Watcher.ManagedTopicsAreRouted | internal/kafka/utils.go:5-12 | Classifier and routing switch agree: a managed topic has exactly one of the prefixes, its sink is the table of that prefix, and it is never an internal topic |
| Watcher.ManagedExactly | internal/kafka/utils.go:5-12 | A topic is managed if and only if it begins with "temperatures_", "humidities_" or "ph_levels_" |
| Watcher.FlowText | internal/kafka/watcher.go:170-184 | The pipeline created for a topic: its name, the exact query text, parallelism 1 and checkpoint interval 60 s; the Kafka table is "kafka_" and the topic |
| Watcher.ScanServes | internal/kafka/watcher.go:62-76 | A listed topic of one of the three families whose requests get their replies is known after the scan; if it was not before, from a tidy start and with no lost reply to a creation, it has its Kafka table and exactly one pipeline, with the text that streams it into its family's sink |
| Watcher.OthersIgnored | internal/kafka/watcher.go:63-65 | A topic of none of the three families changes nothing |
| Watcher.QueryIdentifiesTopic | internal/kafka/watcher.go:170-182 | Two managed topics with the same query text are the same topic |
| Watcher.Watcher.Seed | internal/kafka/watcher.go:42-49 | After a successful listing the known topics are exactly the earlier ones and the names on the server; after a failed one, just the earlier ones |
| Watcher.Watcher.CreateArroyoFlow | internal/kafka/watcher.go:85-195 | The flow with its routing and query text takes the server where `Flow` goes and reports success likewise |
| Watcher.Watcher.ScanTopics | internal/kafka/watcher.go:62-76 | One pass over the topic list ends with the known set and server of `Scan`, whatever fails |
| Watcher.ScanCreatesOnce | internal/kafka/watcher.go:62-76 | On either kind of server, for any topic list and any failures short of a lost reply to a creation: every newly known topic has exactly one pipeline and its Kafka table, no other topic's count changes, and unknown managed topics have none |
| Watcher.FlowAddsOne | internal/kafka/watcher.go:85-195 | For a topic without a pipeline: a flow adds exactly one if and only if the table reply arrived and the pipeline request took effect, and reports success if and only if both replies arrived; no other topic's count changes |
| Watcher.FailedAttemptIsHarmless | internal/kafka/watcher.go:116-125 | On a rejecting server, an attempt that fails with or without effect does not change what a clean attempt arrives at |
| Watcher.RetryConverges | internal/kafka/watcher.go:116-191 | On a rejecting server, any sequence of attempts that ends in success leaves exactly the state of one clean attempt |
| Watcher.CleanFlow | internal/kafka/watcher.go:184-191 | A clean attempt succeeds, adds the table, keeps an existing pipeline untouched and otherwise adds exactly one |
| Watcher.RetryOnAcceptingServer | internal/kafka/watcher.go:184-191 | On an accepting server the number of pipelines grows by exactly the number of attempts that took effect |
| Supervisor.Supervisor.DetectFailed | internal/worker/supervisor.go:105-113 | The scan with early exit reports a failure if and only if some job is Stopped or Failed |
| Supervisor.AttemptedExactly | internal/worker/supervisor.go:84-124 | A pass attempts a restart on a snapshot pipeline if and only if its jobs were read and one is Stopped or Failed |
| Supervisor.Supervisor.CheckAndRestartPipelines | internal/worker/supervisor.go:63-127 | One pass over the snapshot ends with the server and the attempted ids of `Pass`; a failed listing does nothing |
| Supervisor.PassClosedForm | internal/worker/supervisor.go:84-124 | After each turn the server is what the already treated pipelines left, followed by the untreated ones and the replacements so far |
| Supervisor.WholePass | internal/worker/supervisor.go:84-124 | A pass nothing else interferes with attempts exactly the snapshot pipelines whose jobs were read and include a stopped or failed one, each once; replacements get consecutive fresh ids and are not revisited; every other pipeline stays as it was |
| ControlLoopPasses.PassInAnyRun | internal/worker/supervisor.go:84-124 | Whatever the watcher, the jobs and the operator do meanwhile: the pipelines of a snapshot are examined in order and once each, a restart is attempted once on exactly those whose jobs were read and had a Stopped or Failed one when examined, no replacement or other addition is ever attempted, and every snapshot pipeline not attempted is still there under its id and definition |
| ControlLoops.StepKeepsBooks | internal/arroyo/arroyo.go:89-164 | Every step of either loop, the jobs or the operator keeps the ledger: what is on the server, in flight or lost is what was ever born, and the definition a restart holds is the server's |
| ControlLoops.Conservation | internal/arroyo/arroyo.go:89-164 | In every run, with any requests dropped or replies lost: definitions on the server + in flight + lost = definitions ever present, as multisets of (name, query) |
| ControlLoopTheorems.ExactlyOnePlace | internal/kafka/watcher.go:42-76 | In every interleaving a managed topic that is known (or about to be) is in exactly one place, and an unknown one in none; preconditions: seed delivered before any deletion, no lost reply on the watcher's creations, no managed name through the operator's route |
| ControlLoopTheorems.BornOnceStep | internal/kafka/watcher.go:62-76 | Inductive step: a managed topic has been created exactly once if it is known or about to be marked, else never |
| ControlLoopLosses.StepLoses | internal/arroyo/arroyo.go:110-161 | Under that invariant a step loses a managed topic exactly if it is a dropped recreate of it or a deletion of it that takes effect with the reply lost |
| ControlLoopLosses.LostExactly | internal/arroyo/arroyo.go:110-161 | In every seeded run: the number of losses of a managed topic is the number of such steps, at most one, and a known topic is neither on the server nor in flight exactly after one |
| ControlLoopTheorems.SeedGivesBornOnce | internal/kafka/watcher.go:42-49 | A successful seeding before any deletion establishes that invariant |
| ControlLoopTheorems.RoutingPreserved | internal/kafka/watcher.go:170-184 | In every run, whatever fails: a managed definition on the server or in flight reads its own Kafka table into its family's sink, through any number of restarts; if it was created in the run, its Kafka table exists |
| ControlLoopTheorems.RestartIsARun | internal/arroyo/arroyo.go:89-164 | An undisturbed restart is three steps of the machine with the outcome of `Restart` |
| ControlLoopTheorems.FlowIsARun | internal/kafka/watcher.go:62-76 | An undisturbed flow is four steps with the outcome of `Flow`, and the topic becomes known exactly on success |
| ControlLoopTheorems.ScanIsARun | internal/kafka/watcher.go:62-76 | An undisturbed scan of any topic list is a run with the outcome of `Scan`; unwanted topics are passed over without a request |
| ControlLoopTheorems.TurnIsARun | internal/worker/supervisor.go:84-124 | One undisturbed turn of a pass is a run: a restart exactly if the jobs were read and one had stopped or failed |
| ControlLoopTheorems.PassIsARun | internal/worker/supervisor.go:84-124 | An undisturbed pass over any snapshot is a run with the outcome of `Pass` |
| ControlLoopLimits.LostReplyBreaks | internal/kafka/watcher.go:184-191 | Without "no lost reply": for every managed topic a run ends with two definitions of it |
| ControlLoopLimits.LateSeedBreaks | internal/kafka/watcher.go:42-49 | Without "seeded before the first deletion": likewise |
| ControlLoopLimits.FailedSeedBreaks | internal/kafka/watcher.go:43-44 | Without "the seed listing succeeds": likewise |
| ControlLoopLimits.OperatorNameBreaks | internal/arroyo/pipelines.go:51-114 | Without "no managed name through the operator's route": likewise |
| ControlLoops.OperatorText | internal/arroyo/pipelines.go:71-85 | The definition the operator's route creates: the given name, the fixed query text, parallelism 3 |
| Readings.Store.GetReadings | internal/db/readings.go:17-89 | An unparsable id, an unknown type or the first failing day is reported as such; otherwise the values of the day buckets in order, also for an inverted window |
| Readings.DayIsUtc | internal/db/readings.go:48-49 | The day of an instant is d if and only if it lies in the 86400000 ms from d times that on |
| Readings.ReadCounts | internal/db/readings.go:48-86 | If each row's bucket is the UTC day of its timestamp, a read of any window returns each value exactly as often as rows of the sensor with from <= timestamp <= to hold it |
| Readings.MisplacedIsMissed | internal/db/readings.go:48-60 | If some row is in another bucket, some read misses it |
| Readings.BucketIsPick | internal/db/readings.go:55-75 | One bucket's answer holds exactly its rows of the sensor in the window, each once, newest first |
| Readings.ScanIsPick | internal/db/readings.go:52-86 | For any table: the bucket loop returns each matching row stored in a visited bucket exactly once |
| Readings.ReadIsSound | internal/db/readings.go:52-86 | For any table: nothing outside the flat query and nothing twice |
| Readings.ReadIsFlat | internal/db/readings.go:48-86 | For a well-bucketed table and any window the read is the flat query over all rows, as a multiset |
| Readings.CompleteIffWellBucketed | migrations/000004_create_temperatures_table.up.cassandra:1-6 | Reads are complete through every window if and only if each row is in the bucket of its own UTC day |
| Readings.WindowsAdd | internal/db/readings.go:52-75 | Adjacent windows add up, also when the cut falls inside a day read twice |
| Readings.WiderWindowReadsMore | internal/db/readings.go:52-75 | A wider window returns at least the readings of a narrower one |
| Aggregates.Fold | internal/routes/handlers.go:186-203 | The loop computes mean, extremes and count of the list, for lists in any order |
| Aggregates.AggregatePermutation | internal/routes/handlers.go:186-203 | The aggregate depends on the multiset of readings only, not on bucket or scan order |
| Aggregates.AggregateSummarises | internal/routes/handlers.go:186-203 | The aggregate meets the order-free specification: count, attained bounds, a mean that makes up the total, min <= avg <= max |
| Aggregates.SummaryIsUnique | internal/routes/handlers.go:197-203 | Only one aggregate meets that specification |
| Aggregates.MissReplyMeetsSpec | internal/routes/handlers.go:173-203 | End to end over a well-bucketed table: the summary of the rows in the window, and none exactly if there are no such rows |
| Aggregates.WindowsMerge | internal/routes/handlers.go:186-203 | The aggregate of a window is the merge of those of two adjacent parts, either of which may be empty: counts and totals add, extremes combine |
| Aggregates.WiderWindowAggregates | internal/routes/handlers.go:186-203 | Widening the window never lowers the count, raises the minimum or lowers the maximum |
| AggregateHandler.LawfulExists | internal/routes/handlers.go:148-155 | Some platform meets the laws assumed of parsing, day texts and JSON, and accepts a window and a sensor id |
| AggregateHandler.KeysAreInjective | internal/routes/handlers.go:153-155 | Two keys are equal if and only if sensor text (colons allowed), UTC day and window text are |
| AggregateHandler.ValidateExactly | internal/routes/handlers.go:120-151 | Which requests pass and as what query: non-empty parameters, an accepted window, and a type text of leading zeros and 0, 1 or 2, after an optional plus sign, or a minus sign before zero |
| AggregateHandler.PrintedTypesValidate | internal/routes/handlers.go:140-145 | Of the printed type numbers exactly 0, 1 and 2 are accepted and read as themselves |
| AggregateHandler.Cache.StoreAggregate | internal/cache/memcached.go:29-40 | A store applied in time sets the entry with its lifetime; one that timed out is reported as failed but stays underway |
| AggregateHandler.Cache.Land | internal/cache/memcached.go:29-40 | A write that timed out takes effect later, its lifetime counted from then |
| AggregateHandler.Cache.FetchAggregate | internal/cache/valkey.go:127-160 | A live entry's text, or nothing when missing, expired or unreachable |
| AggregateHandler.App.ReadAndFold | internal/routes/handlers.go:173-203 | Read error, not-found or a fresh aggregate, as `MissReply` prescribes for the sensor, type and window |
| AggregateHandler.App.Aggregate | internal/routes/handlers.go:109-215 | Bad parameters touch nothing; a live decodable entry is served without a write; otherwise the miss reply, and the cache changes only under this request's key, only for a fresh aggregate |
| AggregateHandler.MissReplyExactly | internal/routes/handlers.go:173-203 | The miss reply over tables bucketed by UTC day, for the table of the type and the window from now minus the requested duration to now: a read error exactly for an unparsable id or a failing day of the window, not found exactly if the sensor has no row in it, else count, extremes and mean of exactly those rows, dated now |
| AggregateHandler.KeyText | internal/routes/handlers.go:153-155 | The key's text: "agg:", the raw sensor id, the text of the UTC day and the window, joined by colons |
| AggregateHandler.ServedFiveMinutes | internal/routes/handlers.go:205-206 | An entry stored at t is served to requests that reach the cache before t + 300000 ms and to no others |
| AggregateCache.UpsertMeaning | migrations/000004_create_temperatures_table.up.cassandra:6-6 | A table write replaces the row of the same primary key and leaves all others; keys stay unique |
| AggregateCache.StepKeepsInv | internal/routes/handlers.go:153-209 | Every step of concurrent requests, table writes, late cache writes, evictions and corruptions keeps: each entry that decodes is the summary of the bucket answers its record names, stands under the key of the recorded query, and landed within the delay |
| AggregateCache.RunKeepsInv | internal/routes/handlers.go:153-209 | That invariant holds in every run |
| AggregateCacheTrace.StepIsTraced | internal/routes/handlers.go:153-209 | Every step keeps what the records stand for: each entry that decodes is the answer a request in the world gave, and the versions recorded as its start, its bucket reads and its end were current when that request started, between, and when it answered |
| AggregateCacheTrace.TracedRun | internal/routes/handlers.go:153-209 | So it is in every run |
| AggregateCacheTrace.StateIsCurrent | internal/routes/handlers.go:153-209 | The dates of versions are the run's own: the version that is the latest in a state of a run counts as current at that state's clock ever after |
| AggregateCacheTheorems.HitIsAnEarlierMiss | internal/routes/handlers.go:157-166 | Every hit is the answer an earlier request gave for the same sensor text, window text and UTC day; that request started less than TTL + delay ago and answered by now, and each bucket was read at a version current in between |
| AggregateCacheTheorems.StoredKeysHoldSensors | internal/routes/handlers.go:205-206 | Keys under which the service stored an aggregate belong to a sensor id that parsed, an accepted window and the day of the aggregate's own timestamp |
| AggregateCacheTheorems.HitMatchesIn | internal/routes/handlers.go:155-166 | In every run whose queries never share sensor and window under two types, a hit answers the very query asked |
| AggregateCacheTypes.HitsMatchIffTyped | internal/routes/handlers.go:155-166 | For any set of queries: all hits in all runs over it answer the query asked if and only if no two of its cacheable queries share sensor and window but differ in type |
| AggregateCacheTheorems.SameVersionIsFlat | internal/db/readings.go:52-86 | An aggregate whose buckets were all read at one version is the flat summary of that version |
| AggregateCacheTheorems.ReadIsSandwiched | internal/db/readings.go:52-86 | With rows only added, a read at versions between two others returns each value at least as often as the earlier one holds it in the window and at most as often as the later one |
| AggregateCacheTheorems.EntryIsSandwiched | internal/db/readings.go:52-86 | In such runs that holds of every cached aggregate with the versions current when its request started and when it answered |
| AggregateCacheTheorems.OrderlyRuns | internal/db/readings.go:52-60 | Runs that insert rows under fresh keys and into the bucket of their own UTC day keep all versions well bucketed and append-only |
| AggregateCacheLimits.UndisturbedMiss | internal/routes/handlers.go:109-215 | A request nobody disturbs, for any accepted window, answers what the handler's method answers for the current tables and hands the same write to the cache |
| AggregateCacheLimits.FailedBucketMiss | internal/db/readings.go:77-82 | If the query on one of its days fails, the request ends with the handler's read error for that failing day |
| AggregateCacheLimits.UnparsableMiss | internal/routes/handlers.go:173-178 | A sensor id that does not parse is a read error there too |
| AggregateCacheLimits.OneDayIsOneState | internal/db/readings.go:48-52 | For a window within one UTC day, the cached aggregate is the flat summary of a version current at some instant between the request and its answer |
| AggregateCacheLimits.OneDayHitIsRecent | internal/routes/handlers.go:157-166 | Such a window's hit is the flat summary of one version, and that version was current within the last TTL + delay |
| AggregateCacheLimits.TornRead | internal/db/readings.go:52-86 | For every query reaching back over midnight there is a run whose cached aggregate is the flat summary of no version |
| AggregateCacheLimits.OneStateIffOneDay | internal/db/readings.go:48-86 | For a sensor id that parses: in all runs, cached aggregates are flat summaries of one version current between request and answer, if and only if the window does not begin on an earlier UTC day than it ends |
| AggregateCacheTypes.UntypedHit | internal/routes/handlers.go:155-166 | For any two cacheable queries that differ in type only, a run serves the second the first one's aggregate although its own table is empty in the window |
| RecentCache.TimestampRoundTrip | internal/cache/valkey.go:71-71 | Storing and reading an instant floors it to its millisecond if and only if that millisecond is between -9223372036854 and 9223372036854 |
| RecentCache.FaithfulExists | internal/cache/valkey.go:39-42 | Some codec meets the laws assumed of value texts and scores |
| RecentCache.EntryRoundTrip | internal/cache/valkey.go:39-42 | In that range a stored reading comes back with its value and its millisecond |
| RecentCache.Valkey.Store | internal/cache/valkey.go:32-53 | The reading's value moves to its new score, only under its own prefix; the lifetime is renewed only after a ZADD known to have succeeded; an expired set starts empty and without expiry |
| RecentCache.StoredForAnHour | internal/cache/valkey.go:39-50 | After a store that goes through at t the key holds the reading until t + 3600000 ms and is empty from then on |
| RecentCache.StoreExactly | internal/cache/valkey.go:39-50 | For every combination of fates: what a store does to the members and to the deadline; one whose expiry request is not made or dropped leaves a running deadline as it was |
| RecentCache.LexLessExactly | internal/cache/valkey.go:62-62 | Values of one millisecond rank as byte strings |
| RecentCache.Valkey.FetchLast | internal/cache/valkey.go:55-90 | The requested range decoded in order, or an error when the request fails or a member is no number |
| RecentCache.Deadlines | internal/cache/valkey.go:47-50 | After any stores the key's expiry is the one deadline that no later store put off, if it is still ahead |
| RecentCache.LiveHoldsLastScores | internal/cache/valkey.go:32-53 | After any stores at any times, with any requests dropped or replies lost: the live set is ordered and holds exactly each value stored since the last expiry, under the score it was last stored with |
| RecentCache.FetchLastIsTop | internal/cache/valkey.go:62-62 | After any such stores a fetch of the last n >= 1 gives the n highest-scored of these, highest first, no value twice, leaving out none that ranks above |
| RecentCache.FetchLastNonPositive | internal/cache/valkey.go:62-62 | For n <= 0 the range end counts from the end of the set: n = 0 gives the whole set, each step below one fewer |
| RecentCache.AtMostN | internal/cache/valkey.go:62-62 | At most n readings come back if and only if n >= 1 or the set has no more than -n |
| RecentCache.NothingOverwritten | internal/cache/valkey.go:39-42 | Every reading the expiries have left is still in the set if and only if none of their values was stored at two different milliseconds |
| RecentCache.NewestReadings | internal/cache/valkey.go:55-90 | In that case, for instants in range, the last n decode to the newest n surviving readings: values equal, times floored to the millisecond, newest first, and every other surviving reading no newer |
| Decimal.AtoiInvertsPrint | internal/db/sensors.go:162-162 | Printing then parsing gives back every 64-bit integer and an error for any other |
| Decimal.PrintIsCanonical | internal/db/sensors.go:162-162 | Printed numbers have a minus sign exactly if negative, no plus sign and no leading zeros |
| Registry.KindRoundTrip | internal/db/sensors.go:88-100 | The type column reads back every number written; the three legacy names are no numbers and keep their meaning |
| Registry.KindExactly | internal/db/sensors.go:88-100 | Which type texts decode, and to what: numbers as themselves, the three legacy names as 0, 1 and 2, nothing else |
| Registry.MetaStore.RegisterSensor | internal/db/sensors.go:133-179 | Exactly when a registration is a duplicate, a read error or a success; which of the two rows each failure leaves; validity kept; names stay unique exactly unless a taken name was missed and its row inserted, so always when every name is readable |
| Registry.MetaStore.StoreSensorCredentials | internal/db/sensors.go:181-192 | Unless dropped, the update stores the login under its key and changes nothing else; it would create a row with nothing else if there were none |
| RegistryRuns.CreditStores | internal/routes/handlers.go:432-440 | The handler's credential update stores the login with the registered row |
| Registry.MetaStore.RegisterField | internal/db/fields.go:87-129 | The same for a user's fields: with everything readable a name is turned away exactly if taken, and names stay unique per user |
| FieldRuns.RunRefines | internal/db/fields.go:87-129 | Every run of concurrent field registrations is a run of sensor registrations up to their first inserts |
| FieldRuns.BeginDecides | internal/db/fields.go:91-112 | Whatever else runs, a field registration whose reads succeed is turned away as a duplicate if and only if its name was taken when it began |
| FieldRuns.UniqueIfSerial | internal/db/fields.go:91-122 | Without overlapping calls of one user and name, and with no failing read, each user's field names stay unique in every run |
| FieldRuns.BothInsertIffOverlap | internal/db/fields.go:91-122 | Two calls for one free name of a user whose reads succeed and whose inserts are not dropped: two fields of the name if the second began before the first inserted, else one |
| FieldRuns.AloneIsRegisterField | internal/db/fields.go:87-129 | A field registration nobody disturbs, with any faults, does to the table what `RegisterField` states |
| FieldRuns.MeetsByRow | internal/db/fields.go:98-109 | The check by ids finds the name exactly if a row read has it |
| Registry.MetaStore.GetSensorsByFieldID | internal/db/sensors.go:67-131 | An error if the scan breaks; otherwise the listing, and the field's name as the first listed row gives it, empty if none is listed |
| Registry.ListingIsInOrder | internal/db/sensors.go:88-114 | A listing holds every decodable row of the field once, in scan order, and drops only undecodable ones |
| Registry.AsSensorExactly | internal/db/sensors.go:88-106 | A row is listed with its own id, its name (empty if null) and its decoded type, in its own field only |
| Registry.RegisteredIsListed | internal/db/sensors.go:159-162 | Register, then list: a registered sensor appears last in its field's listing with its id, name and type, and no other field's listing changes |
| Registry.TakenExactly | internal/db/sensors.go:145-151 | A name counts as taken if a row of the field has it, a null name counting as the empty one |
| Registry.ListedExactly | internal/db/sensors.go:142-156 | A listing that breaks after k ids has yielded the first k |
| Registry.ReadableCheckIsExact | internal/db/sensors.go:137-153 | With the whole partition readable, the check loop finds the name if and only if some sensor of the field has it |
| Registry.UniqueAfterInsert | internal/db/sensors.go:159-165 | An insert keeps names unique within fields if and only if the name was free |
| Registry.RegistrationKeepsValid | internal/db/sensors.go:158-172 | The tables are valid after neither, one or both of the inserts |
| RegistryRuns.StepKeepsInv | internal/db/sensors.go:133-192 | Every step of concurrent registrations keeps unique ids, and each sensor's row in `sensors_by_field` with the same id, name and type |
| RegistryRuns.CreditKeeps | internal/routes/handlers.go:432-440 | The credential update finds the registration's row: it adds none and changes no id, name or type |
| RegistryRuns.SensorsAreListed | internal/db/sensors.go:142-192 | Both hold in every run, with failures possible between any two writes |
| RegistryTheorems.BeginDecides | internal/db/sensors.go:137-156 | Whatever else runs, a call whose reads succeed and whose listing is one page is turned away as a duplicate if and only if its name was taken when it began |
| RegistryTheorems.UniqueIfSerial | internal/db/sensors.go:137-165 | In every run where no call begins between another call's beginning and first insert for the same field and name, and no read fails, names stay unique within fields, whatever writes fail |
| RegistryTheorems.BothInsertIffOverlap | internal/db/sensors.go:137-165 | Two calls for one free name whose reads succeed and whose first inserts are not dropped, with calls of any other field or name around them: the first inserts, and the second does too, making two rows of the name, if and only if it began before the first one's insert |
| RegistryRuns.OverlapDuplicatesName | internal/db/sensors.go:137-165 | For any field and name, two calls whose checks overlap both register it |
| RegistryRuns.AloneIsRegisterSensor | internal/db/sensors.go:133-179 | A registration nobody disturbs, with any faults, does to the tables what `RegisterSensor` states |

## Left out

- Liveness of lost pipelines: the code does not recreate one whose recreate request failed, so nothing is claimed; the ledger counts it.
- Name uniqueness when registrations of one name overlap: the code does not provide it; `BothInsertIffOverlap` says when it fails.
- HTTP, JSON, CQL, Kafka, Redis and memcached clients: each call is an operation with a fate; the JSON of an aggregate is a text with a partial inverse, next to any other text.
- Floating-point rounding, NaN and infinities: aggregates are over reals; values in a sorted set are opaque float64 numbers whose text has an inverse.
- Instants finer than a millisecond in table reads, and calendar formatting: day text is an injective, colon-free function of the day number.
- UUID and duration parsing: parameters, of which only "an accepted duration has no colon" is used.
- Timeouts of reads: they show up as failing queries; the 2 s budget of a whole read is not modelled.
- Watcher.Watcher.ScanTopics: does not model the sleep, the metadata refresh and cancellation of the endless loop, because each pass starts from whatever state is there.
- Supervisor.Supervisor.CheckAndRestartPipelines: does not model the ticker, `Start` and `Stop`; one pass runs at a time, as in the source.
- `latestHandler` and `GetLast5Values`: the handler reads and refills different keys and a fixed sensor id; only `Store` and `FetchLast` beneath it are modelled.
- Other writers of the cache: an entry the service did not write is assumed not to decode; in Go even `{}` or `null` would be served as an aggregate of zeros.
- Paging of listings: the ids of a field or user come in one read, while the driver may fetch later pages during the check loop.
- EMQX user creation, passwords and user names: the login text is a parameter.
- `GetFieldsByUserID`, `GetFieldByID`, `GetSensorCredentials`, `GetJob`, `ListJobs`, connection profiles and the remaining handlers: they read single rows or forward requests.
- Memcached's `Store` and `FetchLast`: unimplemented in the source.
- Creation of a Scylla sink table per topic: commented out in the source.
- Metrics, tracing, logging, configuration, migrations' rollback and containers: no state worth proving.
