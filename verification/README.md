# Promfetcher, modelled and proved

Promfetcher keeps a routing table fed by messages from a bus, and answers requests for an app's metrics by
scraping all instances of the app at once and merging what they return. This project models that behaviour in
Dafny 4.11 and proves properties of it. `dafny verify dfyconfig.toml` checks all of it.

## What is modelled

**The routing table** (`Uris`, `RouteModel`, `RouteStore`, `RouteStoreProofs`, `StrayEntries`, `AmbiguousUris`,
`RoutingTables`, `RoutesFetchers`). A table is a map from keys to Go slices, and slices are spans of shared backing arrays.
`RouteStore` says what registering and unregistering do to such a table as a value; `RoutingTable` is the same table on the heap, with its
loops, and each method is proved against the value form. `UnregisterRoute` files the shortened slice under the URI
it was given, not under the key it read; this is kept as it is. The consequences:

* Over a set of URIs, every history leaves under every key exactly the live routes of that key *if and only if* no
  URI of the set is the route key of another one without being its own key. The sets that fail are those with a
  slash-terminated URI that is also the key of another URI, such as `a/` and `a//`. The same condition
  is exact for the round trip of registering and unregistering, for stored tags being the latest, for repeated
  registers changing nothing, and for a URI listed twice in a message counting once.
* When every URI that is *unregistered* is its own route key, the table has no nil slot, no shared array and no
  stray entry, and lookups and scans see exactly the live routes.
* Lookups by name never yield a nil pointer, which a call of Metrics would dereference, *if and only if* every URI is
  its own route key. For any other URI it is enough that an app registers it and unregisters it again.
* Scans of all entries, as lookups by id make them, never meet a dead route *if and only if* every URI is its own
  route key, and never miss a live one *if and only if* no two URIs are ambiguous in the sense above.

**The scrape** (`WorkerPool`, `WorkerPoolProofs`, `Exporters`, `Labels`, `FamilyMerge`, `MetricsOutcomes`,
`MetricsCalls`). The producer, the bounded channel, the five workers, the mutex-protected results and error cell and the wait group are
a relation between states; a schedule is any sequence of enabled steps. Every schedule of n jobs that cannot go on
has taken exactly 5n + 6 steps and ended with all workers gone. Schedules answer alike, up to order, when the pool is
*steady*: it has no headers to lose, or no untagged route stands behind one tagged as an exporter. Exactly then do all
schedules make the scrapes of the sequential program. Setting up exporter routes, rewriting labels and merging
families are loops over values and objects, as in the source.

**The text of the table** (`TableTexts`). The text names each key by the String method of `Uri`, which drops one slash.
So it reads back to the same table exactly when no key ends in a slash, and names two entries alike exactly when two
keys differ by one slash only; unregistering `a/` is enough to bring that about.

**The service broker and the scraped path** (`Brokers`), **health, signals and shutdown** (`HealthChecks`, `Lifecycle`) and **the NATS callbacks** (`Reconnects`).

## Conventions

* The order in which Go ranges over a map is a parameter named `order`, or an arbitrary choice inside a loop; no
  result depends on it beyond what is stated.
* The capacity Go's `append` chooses for a grown slice is the parameter `spare` (`growth` for whole messages).
* A scrape together with the parsing of its response is an arbitrary function `scrape` of the job and the headers.
  Template execution, URL unescaping, UUID recognition, JSON decoding and JSON marshalling are function parameters.
* A found slice is taken as an immutable snapshot, each bind or unbind request as one atomic step, and the database
  as a set of rows keyed by binding id. Binding ids are not empty, as the broker's URLs require. The pool takes the
  error made for a 4xx answer to have a non-zero status, as `ErrNoEndpointFound` gives it.
* README.md:103 of the repository says that a signal stops the server. The code lets the route fetcher take it
  instead, so the theorems are about what the code does: after two delivered signals every run ends in
  cancellation, and a single one may be lost.
* `RouteKey` is written as one pass over the URI, and proved equal to the source's steps.
* `hide` statements in proofs only keep definitions away from the solver.

## Model

| member | source | states |
|---|---|---|
| Uris.RouteKeyIsInSteps | models/uris.go:29-35 | the one-pass key used in proofs is trimming one slash, lower-casing and cutting at the question mark in turn |
| Uris.LettersGoToLower | models/uris.go:10-12 | each upper-case letter becomes the lower-case one at its place in the alphabet, everything else stays |
| Uris.HasKeyIff | models/uris.go:10-35 | a URI has a given key exactly when it spells the key, in letters of any case, alone, with one slash behind it or with any query |
| Uris.OwnKeyIff | models/uris.go:25-35 | a URI is its own route key exactly when it has no query part, no upper case and no trailing slash |
| Uris.RouteKeysAreTheKeyShaped | models/uris.go:10-35 | the strings without query part and upper case are exactly the route keys of URIs |
| Uris.SettlesAfterItsSlashes | models/uris.go:25-35 | normalising again is stable after exactly as many extra rounds as the first key has trailing slashes |
| RouteStoreProofs.ContainedRunsAreExact | models/route.go:138-203 | in contained histories each key's non-nil slots are one for one the live routes, despite nil tails and aliasing |
| RouteStoreProofs.ExactIffUnambiguous | models/route.go:176-203 | exactness at every key in every history holds if and only if no URI is another one's key without being its own |
| RouteStoreProofs.ConfusionLosesALiveRoute | models/route.go:185-196 | the three-event history by which an ambiguous pair of URIs loses a live route |
| RouteStoreProofs.SlashFreeKeysAreUnambiguous | models/uris.go:25-35 | URIs whose route keys do not end in a slash are never ambiguous |
| RouteStoreProofs.KeyedRunsAreClean | models/route.go:138-203 | when unregistering is by key, the whole table is a nil-free map from registered keys, and no others, to their live routes |
| RouteStoreProofs.UnregisterKeepsCleanIff | models/route.go:182-198 | one unregister keeps a clean table clean exactly when it is by key or finds nothing |
| RouteStoreProofs.OnlyRegisteredRoutesAreFiled | models/route.go:138-203 | register and unregister events never put into any backing array, in use or not, a route that was not registered |
| RouteStoreProofs.LastWriteWins | models/route.go:149-167 | an identity is live exactly when its latest event is a register, and carries that event's six tags |
| RouteStoreProofs.FiledTagsAreTheLatest | models/route.go:149-167 | the same for the slots actually stored, in contained histories |
| AmbiguousUris.FiledTagsAreTheLatestIff | models/route.go:138-203 | over a set of URIs stored tags are the latest, in every history, if and only if the set is unambiguous |
| RouteStoreProofs.RepeatedRegisterIsNoOp | models/route.go:149-167 | after a contained history, a register repeating identity and tags of the latest event changes nothing in the table |
| AmbiguousUris.RepeatedRegisterIsNoOpIff | models/route.go:138-203 | over a set of URIs that holds after every history if and only if the set is unambiguous |
| RouteStoreProofs.ListedTwiceIsListedOnce | fetchers/routesfetcher.go:220-222 | after a contained history, a message listing a URI twice, or two spellings of it, acts as if it listed it once |
| AmbiguousUris.ListedTwiceIsListedOnceIff | fetchers/routesfetcher.go:220-222 | over a set of URIs that holds after every history if and only if the set is unambiguous |
| RouteStoreProofs.RegisteredRouteIsFound | models/route.go:109-119 | right after a register any name with the same key finds an Equal route |
| RouteStoreProofs.FoundInAnySpelling | models/route.go:109-148 | a route registered in one spelling of a key, with or without a query, is found in any other |
| RouteStoreProofs.RegisterPlaces | models/route.go:149-173 | slot by slot: the first Equal route with other tags is replaced, an unknown one is added at the end, nothing else moves |
| RouteStoreProofs.UnregisterPlaces | models/route.go:187-199 | slot by slot: the last route moves to the place of the first Equal one and its own place is cut off or left nil |
| RouteModel.WhatMakesAnotherRoute | models/route.go:225-236 | the six fields, taken one at a time, that make another route, and that no other field does |
| RouteModel.WhatNeedsAnUpdate | models/route.go:238-249 | the six tags, taken one at a time, that ask for an update, and that no other field does |
| RouteStoreProofs.UnregisterUndoesRegister | models/route.go:138-203 | in a table none of whose keys shares an array with another, unregistering a route that was fresh, by a URI that is not a foreign key, restores the non-nil contents of every key |
| AmbiguousUris.UnregisterUndoesRegisterIff | models/route.go:138-203 | over a set of URIs that round trip restores every key, after every history, if and only if the set is unambiguous |
| AmbiguousUris.AppendingToAFoundSliceReachesTheTable | fetchers/metricsfetcher.go:82 | a found slice may have room in the table's own array, and a route appended to it in place then shows under another key |
| StrayEntries.LookupsAreNilFreeIff | models/route.go:109-119 | over a set of URIs no history gives a lookup by name a nil slot if and only if every URI is its own route key |
| StrayEntries.ForeignUnregisterLeavesNil | models/route.go:182-198 | the failing history for any other URI: one register and one unregister leave a single nil slot |
| StrayEntries.ScansShowLiveOnlyIff | models/route.go:49-107 | over a set of URIs scans of all entries meet live routes only, in every history, if and only if every URI is its own route key |
| StrayEntries.ReplacedRouteStaysVisible | models/route.go:185-196 | the failing history for any other URI: a scan still meets a route whose tags were replaced |
| StrayEntries.UnregisteredRouteStaysVisible | models/route.go:185-196 | a history after which a scan still meets a route unregistered everywhere |
| StrayEntries.ScansMissNoneIff | models/route.go:49-107 | over a set of URIs scans miss no live route, in every history, if and only if the set is unambiguous |
| StrayEntries.ScansMeetTheLiveRoutes | models/route.go:49-107 | history by history: contained ones hide no live route from scans, and with unregistering by key scans meet exactly the live routes |
| RoutingTables.RoutingTable.RegisterRoute | models/route.go:138-174 | the loop over the slice and the append on the heap do what the value form says |
| RoutingTables.RoutingTable.FindStale | models/route.go:149-161 | the search loop finds the first Equal route to update and whether there is an Equal one at all |
| RoutingTables.RoutingTable.UnregisterRoute | models/route.go:176-203 | swap with the last slot, nil tail, shorter slice filed under the URI, as in the value form |
| RoutingTables.RoutingTable.FindWeb | models/route.go:53-77 | the scan yields each address of a matching web route once and no other, and leaves each URL a key the route is filed under |
| RoutingTables.RoutingTable.FindById | models/route.go:80-107 | only web routes of the app id, each address once and none missing, nothing but URLs changed |
| RoutingTables.RoutingTable.FindByOrgSpaceName | models/route.go:49-78 | only web routes with that organization, space and app name, each address once and none missing |
| RoutingTables.RoutingTable.FindByRouteName | models/route.go:109-119 | the slice of the key, nil slots included |
| RoutingTables.RoutingTable.Find | models/route.go:121-136 | three slash-free parts find the web routes of those names, a UUID those of that app, any other text the slice of its key; the scanning lookups never yield nil |
| RoutingTables.LookupKindIff | models/route.go:126-135 | a text is looked up by names exactly when it has two slashes, and then by its three parts |
| RoutesFetchers.RoutesFetcher.Handle | fetchers/routesfetcher.go:149-164 | the table is always what the events of all messages so far make it, and only app routes are filed |
| RoutesFetchers.RoutesFetcher.RegisterMessage | fetchers/routesfetcher.go:207-224 | one register event per URI, none for a route without app id, which must list a URI for the log |
| RoutesFetchers.RoutesFetcher.UnregisterMessage | fetchers/routesfetcher.go:226-243 | one unregister event per URI, none for a route without app id, which must list a URI for the log |
| RoutesFetchers.RouteOfMessage | mbus/message.go:30-58 | TLS and the port in the address come from the TLS port if there is one, all other fields are the message's own or empty |
| RoutesFetchers.ValidMessageIff | mbus/message.go:47-50 | a message is valid without a route service or with an https one |
| RoutesFetchers.MessageIsHandledIff | fetchers/routesfetcher.go:149-243 | exactly valid register and unregister messages about an app that list a URI have an effect |
| RoutesFetchers.EventsOfMessage | fetchers/routesfetcher.go:207-243 | their events: one for each URI, in order, with the route of the message |
| RoutesFetchers.LookupsAreExact | fetchers/routesfetcher.go:207-243 | while unregistering is by key, lookups by name, id and org see exactly the live routes and no nil |
| RoutesFetchers.LookupsByIdShowLiveOnlyIff | models/route.go:80-107 | over a set of URIs lookups by id yield addresses of the app's live web routes only, in every history, if and only if every URI is its own route key |
| RoutesFetchers.LookupsNeverYieldNilIff | fetchers/routesfetcher.go:149-243 | over a set of URIs no run of bus messages makes a lookup by name yield nil if and only if every URI is its own route key |
| RoutesFetchers.AppIdsInTheTable | fetchers/routesfetcher.go:215-218 | no scan ever meets a route without app id |
| RoutesFetchers.SameRouteIff | mbus/message.go:30-58 | two messages are about the same route exactly when host, port in use, both instance ids, private id and certificate name agree |
| WorkerPoolProofs.SchedulesKeepInv | fetchers/metricsfetcher.go:87-121 | the invariant of channel, custody, counting, history and headers holds in every state of every schedule |
| WorkerPoolProofs.WaitGroupAndChannelAreUsedRight | fetchers/metricsfetcher.go:87-121 | the wait group never goes negative, nothing is sent or done after the close, and there is one close |
| WorkerPoolProofs.NoDeadlock | fetchers/metricsfetcher.go:88-121 | every reachable state that is not final has an enabled step, however small the channel |
| WorkerPoolProofs.EveryScheduleCountsDown | fetchers/metricsfetcher.go:88-121 | steps taken and steps to come add up to 5n + 6 in every schedule |
| WorkerPoolProofs.CompleteSchedules | fetchers/metricsfetcher.go:88-121 | a schedule cannot go on exactly when all workers have left, which is after exactly 5n + 6 steps |
| WorkerPoolProofs.EveryScheduleCompletes | fetchers/metricsfetcher.go:88-121 | every schedule can be completed |
| WorkerPoolProofs.EachRouteOnce | fetchers/metricsfetcher.go:89-121 | at the close each route was scraped once and recorded once, with the results of doing so in completion order |
| WorkerPoolProofs.CallersHeadersIff | fetchers/metricsfetcher.go:89-94 | all found routes get the caller's headers exactly when none is tagged as an exporter; exporters never do |
| Exporters.ParamsToURLValues | config/external_exporters.go:65-79 | succeeds exactly when every template does, with every value resolved |
| Exporters.ToRoute | config/external_exporters.go:49-63 | the exporter's route for an app, or none if a parameter fails |
| Exporters.Expand | fetchers/metricsfetcher.go:46-85 | exporter routes follow the found ones, one attempt for each pair of an app and an exporter |
| Exporters.ExpandAllCounts | fetchers/metricsfetcher.go:57-85 | converted routes plus reported failures are the apps times the exporters |
| Exporters.ExpandAllTags | fetchers/metricsfetcher.go:59-60 | every appended route is tagged as an exporter |
| Exporters.ExpansionIgnoresOrder | fetchers/metricsfetcher.go:58-84 | the order of the apps only affects the order of routes and failures |
| Exporters.ExpandedRoutes | fetchers/metricsfetcher.go:58-84 | for each app and exporter the route with the app's owner and the exporter's host, path and resolved parameters, or the report of its failure, and nothing else |
| Exporters.ExpandAllInTurn | fetchers/metricsfetcher.go:58-84 | apps are expanded in the order of the range |
| Exporters.ExpandAppInTurn | fetchers/metricsfetcher.go:70-83 | and for each of them the exporters in the order of the configuration |
| Exporters.LastInstanceGivesTheTags | fetchers/metricsfetcher.go:46-49 | of several instances of an app the last one gives the tags |
| Labels.CleanMetricLabels | fetchers/metricsfetcher.go:212-227 | the labels with other names, in order, computed by the nested loops |
| Labels.RelabelAll | fetchers/metricsfetcher.go:156-208 | every metric of a scrape gets the rewritten labels |
| Labels.RelabelledValues | fetchers/metricsfetcher.go:158-205 | name by name: reserved names carry the route's value once, instance names only with an instance id, others survive in order |
| Labels.LabelsInOrder | fetchers/metricsfetcher.go:158-205 | the surviving labels come first, in their order, then those of the route in a fixed order |
| Labels.RelabelTwice | fetchers/metricsfetcher.go:158-205 | the last rewriting wins, so rewriting twice is rewriting once |
| FamilyMerge.Merge | fetchers/metricsfetcher.go:126-141 | the in-place merge keeps all names and, under each, all metrics of all instances and no others |
| FamilyMerge.MergeOne | fetchers/metricsfetcher.go:132-139 | merging one instance's map extends known families in place and takes new ones over |
| FamilyMerge.MergeIgnoresOrder | fetchers/metricsfetcher.go:130-141 | the order of the parts affects neither the names nor the multiset of metrics under each |
| FamilyMerge.NamesOccur | fetchers/metricsfetcher.go:130-141 | a name is in the merge exactly when some part has it |
| FamilyMerge.JoinedInTurn | fetchers/metricsfetcher.go:131-138 | the metrics under a name follow each other part by part, in the order of the parts |
| MetricsCalls.Prepare | fetchers/metricsfetcher.go:42-116 | nothing found is status 404, a nil slot among the found ones is a crash, otherwise a pool starts with the found routes, the caller's headers and a channel as long as what was found |
| MetricsCalls.StartMetrics | fetchers/metricsfetcher.go:40-85 | lookups by id and by org, space and name never crash and start an untagged, steady pool with one job for each address of a matching web route; lookups by route crash exactly on a nil slot |
| MetricsCalls.EveryInstanceGetsTheHeaders | fetchers/metricsfetcher.go:87-119 | in every complete schedule of a pool started by id or by names each found route is scraped with the headers of the call, each exporter without |
| MetricsCalls.WhatThePoolAdds | fetchers/metricsfetcher.go:57-85 | besides the found routes a pool has exactly the exporter routes and failure reports of the found apps, and none when only app metrics are asked for |
| MetricsOutcomes.RecordedAreTheScrapesDueIff | fetchers/metricsfetcher.go:89-119 | every schedule records the scrapes of the sequential program in some order if and only if the pool is steady |
| MetricsOutcomes.EverySchedule | fetchers/metricsfetcher.go:87-141 | any pool, any schedule: an error exactly when no exporter is configured and some scrape found no endpoint, the last such error recorded; otherwise one entry per route and failed conversion |
| MetricsOutcomes.ContentsOfTheAnswer | fetchers/metricsfetcher.go:94-124 | the entries are the failed conversions, then job by job what its scrape returned, or one metric labelled with the error and the route |
| MetricsOutcomes.MetricsUnderAName | fetchers/metricsfetcher.go:94-141 | the merged answer holds under each name what the scrapes returned under it, and one metric for each failed scrape |
| MetricsOutcomes.SteadyMetricsUnderAName | fetchers/metricsfetcher.go:87-141 | for a steady pool that is, in every schedule, what all jobs return when each is scraped once with the headers it is due |
| MetricsOutcomes.SteadySchedule | fetchers/metricsfetcher.go:87-141 | every schedule of a steady pool answers like scraping in turn: the same error cases, otherwise the same list up to order |
| MetricsOutcomes.SchedulesMergeAlike | fetchers/metricsfetcher.go:87-141 | two schedules of a steady pool give the same names and the same multiset of metrics under each |
| MetricsCalls.PartsOfTheAnswer | fetchers/metricsfetcher.go:42-141 | whatever was found, tagged or not, a merged answer has one part per found route and per pair of app and exporter |
| MetricsOutcomes.ErrorMetricIsLabelledIff | fetchers/metricsfetcher.go:229-260 | the metric reporting a failed scrape has, besides the error, the labels of the instance's metrics exactly when there is an instance id |
| TableTexts.String | models/route.go:205-223 | appending and trimming commas yields the comma-join form, or the error text if marshalling fails |
| TableTexts.EntriesIff | models/route.go:209-222 | the text has an entry for each key, in the order of the range, with the text of each slot in turn, unless some slot cannot be marshalled |
| TableTexts.TextReadsBack | models/route.go:205-223 | the text parses back to the same lists, each under its key less one trailing slash, when no key needs escaping (sections 4, 5 and 7 of RFC 8259) |
| TableTexts.TextReadsBackIff | models/route.go:205-223 | it parses back to the same table if and only if every key is plain and none ends in a slash |
| TableTexts.NamesAreDistinctIff | models/route.go:210-211 | the names in the text are distinct exactly when no two keys differ by one slash only |
| TableTexts.NamesStayDistinctIff | models/route.go:185-211 | over a set of URIs that holds in every history if and only if no two of the URIs and their keys differ so |
| TableTexts.OneSlashIsEnough | models/route.go:196-211 | registering and unregistering "a/" leaves two entries that the text both names "a" |
| Brokers.Broker.Bind | api/broker.go:99-127 | result and rows of a bind request, in every error case; the rows stay those of the history of requests |
| Brokers.Broker.Unbind | api/broker.go:129-135 | the row of the binding id is gone, without a database nothing happens |
| Brokers.Broker.GetBinding | api/broker.go:137-156 | the endpoint of the app that the requests so far have left bound by this id, or an error if there is none |
| Brokers.EveryHistoryRefines | api/broker.go:99-156 | in every reachable state the rows are a map from app to binding id and endpoint, and endpoints are paths |
| Brokers.AtMostOneRow | api/broker.go:113-122 | an app has at most one row, the one of its binding |
| Brokers.BindOutcome | api/broker.go:113-126 | a bind fails exactly on another app's binding id, and then leaves the app without a row and the other untouched |
| Brokers.BindErrors | api/broker.go:100-116 | when each error of a bind occurs, that it changes nothing, and that an empty endpoint only removes the app's rows |
| Brokers.Broker.SelectEndpoint | scrapers/scrape.go:50-60 | which of default, own path and stored endpoint is requested |
| Brokers.NormalisePath | api/metrics.go:28-34 | the default path starts with a slash |
| Brokers.DefaultPathOf | api/metrics.go:28-34 | of the parameter only what is between white space counts; nothing means /metrics, and a missing slash is put in front |
| Brokers.ChosenEndpointIsAPath | scrapers/scrape.go:50-61 | the requested path starts with a slash exactly when the route's own path, if any, does; always for bus routes |
| Brokers.ScrapePath | scrapers/scrape.go:45-61 | normalising, then selecting, in every reachable broker state, with a database or without: the endpoint of the app's binding, if any, else the default |
| HealthChecks.HealthCheck.SetHealth | healthchecks/healthcheck.go:34-45 | degraded is not left |
| HealthChecks.HealthCheck.ServeHTTP | healthchecks/healthcheck.go:60-74 | 200 in the healthy state only, 503 otherwise |
| HealthChecks.DegradedIsFinal | healthchecks/healthcheck.go:34-45 | in any interleaving of writes the health is degraded exactly when some write said so |
| Lifecycle.RunsKeepInv | main.go:78-127 | each delivered signal is in the slot or consumed by exactly one reader, each reader consumes at most one |
| Lifecycle.CanCancelIff | main.go:92-98 | some way to go on ends in cancellation exactly when the shutdown goroutine has or can take a signal |
| Lifecycle.MustCancelIff | main.go:92-98 | every way to go on ends in cancellation exactly when the shutdown goroutine has a signal, or the slot has one and the fetcher has already taken another |
| Lifecycle.RunsAreShort | main.go:78-127 | every run, whatever signals arrive, takes at most eight steps of its own |
| Lifecycle.SignalsShutTheServerDown | main.go:78-98 | after two delivered signals every run ends in cancellation, after one exactly if the shutdown goroutine got it, after none it does not |
| Lifecycle.OneSignalMayBeLost | fetchers/routesfetcher.go:105-116 | a run in which the only signal is lost to the fetcher |
| Lifecycle.DegradedForGood | main.go:124-127 | once degraded the status stays 503, however readiness races |
| Lifecycle.HealthOfRun | main.go:92-127 | after every run the health is degraded if a USR1 was reacted to, else healthy once main has said so, else initializing; 200 exactly in between |
| Lifecycle.Usr1Degrades | main.go:92-98 | a USR1 the shutdown goroutine reacted to leaves the process degraded |
| Reconnects.GoroutinesAndStarts | mbus/client.go:77-118 | at most one reporting goroutine, disconnects minus acknowledgements; start messages are one plus signals taken |
| Reconnects.CallbackCanReturnIff | mbus/client.go:102-118 | a running callback can end exactly as long as the fetcher's loop has not returned |
| Reconnects.NoCallbackWaitsForNothing | fetchers/routesfetcher.go:105-111 | while the loop runs, a blocked callback's next step is enabled |
| Reconnects.BlockedRunsAreShort | mbus/client.go:102-118 | a callback stays blocked for at most three steps while the loop does not return, and each of them brings it nearer to its end |

## Left out

- HTTP, TLS, gzip, NATS and SQL themselves, and the headers Scrape adds to a request.
- Data races: the finders write a route's URL under a read lock. The model takes locked sections as atomic.
- MetricsCalls.Prepare: appends exporter routes to a copy of the found slice. The source appends to the slice FindByRouteName handed out, which, even without other threads, writes into the table's own array when there is room; AmbiguousUris.AppendingToAFoundSliceReachesTheTable shows where such a route then appears. Histories in which calls of Metrics change the table are not modelled.
- MetricsOutcomes.SchedulesMergeAlike: requires a steady pool. Only lookups by route can find a route tagged as an exporter; then the headers of the routes behind it depend on the schedule, and MetricsOutcomes.EverySchedule and WorkerPoolProofs.EachRouteOnce say what still holds.
- Uris.RouteKeysAreTheKeyShaped: lower-casing is modelled for ASCII letters, other characters are left as they are.
- Brokers.EveryHistoryRefines: two concurrent binds, whose delete and create are not in one transaction, are not modelled.
- RoutesFetchers.RoutesFetcher.Handle: a valid register or unregister message for a route without app id must list a URI, because the source logs the first one and panics if there is none.
- The text of exporter errors and the label carrying it, and the help and type of merged families, which come from whichever scrape finished first.
- The time to live of routes, which the source stores and never uses.
- Retries of the first NATS connection, failures of the first start message, which end the process, and configuration decoding.
- Prometheus counters, logging, the HTTP handlers around the modelled functions and the user documentation.
