# EcoMotive route engine and dashboard logic in Dafny

This project models the parts of EcoMotive, a logistics-route dashboard, that compute something. The Dafny proofs state what each of them guarantees.

Back end (Java):

- **LogisticsGraph** is the in-memory network: hubs by id, plus the list of legs leaving each hub. It is a class with two map fields. `addNode` and `addEdge` update those fields in place.
- **DijkstraEngine.findBestRoute** is Dijkstra's algorithm over that graph. It uses a priority queue without a visited set, then walks back pointers to build the route and its cost, time and CO2 totals. It is proved correct: the returned route is a real path, it weighs no more than any other path under the chosen objective, and it is empty exactly when start equals end or the end cannot be reached. The totals are the sums over the route's legs. The proof also shows that the loop terminates.
- **NetworkService.getNetworkStatistics** reports the hub and route counts and the mean cost, time and CO2 over all routes, with 0 for an empty list.

Front end (JavaScript):

- **MapView**:
  - a five-entry table of hub positions
  - the polyline: one `[start, end]` pair for each leg whose two ends resolve
  - the bounds points the map is fitted to: every end that resolves
- **NetworkAnalytics.fetchStats** groups the route list by transport mode. It builds the count per mode (the distribution chart) and the mean cost, CO2 and time per mode. Modes are listed in order of first occurrence. A failed request falls back to constant data.
- **HubManagement** edits a hub list and a route list in the browser:
  - adding is guarded by the required form fields
  - deleting a hub cascades to every route that touches it
  - route ids are `routes.length + 1`
- **RouteHistory** holds a list of saved searches with:
  - a priority filter
  - deletion by id
  - a colour and a label per priority

Structure:

- Each source file is one module.
- Shared pieces have their own modules:
  - `Model`: the Edge, Node and RouteResult records
  - `Text`: upper-casing
  - `Numeric`: sums and means
  - `Paths`: objectives, path weights and the path predicate
  - `Seqs`: `Array.prototype.filter` and the subsequence relation
- Java doubles are modelled as `real`.
- A JavaScript object used as a dictionary is modelled by its keys in insertion order plus a map.
- React state that a handler replaces becomes a field of a class, and the handler becomes a method that reassigns it.

Behaviour of the front end worth knowing before reading the table:

- **Bounds.** The map is fitted to the list of resolved points, which is handed to the map widget as it is.
- **Distribution.** Each slice carries the route count of its mode.
- **Polyline.** It is the flattened list of `[start, end]` pairs, two points per leg whose ends both resolve.
- **Empty route list.** The page takes the totals from the server's statistics; the per-mode series are empty.

## Model

| member | source | states |
|---|---|---|
| Text.UpperChar | EcoMotive/src/main/java/com/ecomotive/engine/DijkstraEngine.java:31 | upper-cases one ASCII letter (a-z to A-Z, 32 code points down) and keeps every other character |
| Text.ToUpperCase | ecomotive-frontend/src/pages/HubManagement.jsx:108 | same length, character-wise upper-casing, and no lower-case ASCII letter is left |
| Text.ToUpperCaseIdempotent | ecomotive-frontend/src/pages/HubManagement.jsx:108 | upper-casing twice equals upper-casing once |
| Numeric.Mean | EcoMotive/src/main/java/com/ecomotive/service/NetworkService.java:29-42 | the result times the number of values is their sum; an empty list gives 0 (`average().orElse(0.0)`) |
| Numeric.SumBounds | EcoMotive/src/main/java/com/ecomotive/service/NetworkService.java:29-42 | values in [lo, hi] put the sum between n*lo and n*hi |
| Numeric.MeanBounds | EcoMotive/src/main/java/com/ecomotive/service/NetworkService.java:29-42 | the mean of a non-empty list with values in [lo, hi] lies in [lo, hi] |
| Numeric.SumNonNegative | EcoMotive/src/main/java/com/ecomotive/service/NetworkService.java:29-42 | non-negative values have a non-negative sum |
| Paths.ObjectiveOf | EcoMotive/src/main/java/com/ecomotive/engine/DijkstraEngine.java:31-36 | the objective is TIME exactly when the upper-cased type is "TIME", CO2 exactly when it is "CO2", and cost for every other value |
| Paths.ObjectiveIgnoresCase | EcoMotive/src/main/java/com/ecomotive/engine/DijkstraEngine.java:31 | the objective choice ignores letter case |
| Paths.PathWeightAppend | EcoMotive/src/main/java/com/ecomotive/engine/DijkstraEngine.java:38 | the weight of joined paths is the sum of their weights |
| Paths.PathWeightNonNegative | EcoMotive/src/main/java/com/ecomotive/engine/DijkstraEngine.java:38 | a path made of listed legs weighs at least 0 when no leg is negative |
| Graph.LogisticsGraph.constructor | EcoMotive/src/main/java/com/ecomotive/engine/LogisticsGraph.java:14-17 | an empty graph; the well-formedness invariant holds |
| Graph.LogisticsGraph.AddNode | EcoMotive/src/main/java/com/ecomotive/engine/LogisticsGraph.java:20-23 | the hub is stored or replaced by id; it gets an empty leg list only if it had none (`putIfAbsent`); the invariant is kept |
| Graph.LogisticsGraph.AddEdge | EcoMotive/src/main/java/com/ecomotive/engine/LogisticsGraph.java:26-32 | if either end is not a registered hub, nothing changes; otherwise the leg is appended to its source's list and no other list changes; the invariant is kept |
| Graph.LogisticsGraph.GetEdgesFrom | EcoMotive/src/main/java/com/ecomotive/engine/LogisticsGraph.java:35-37 | a registered id gives its stored list of legs, an unknown id the empty list (`getOrDefault`); in a valid graph every returned leg starts at the hub and ends at a registered hub |
| Graph.LogisticsGraph.GetNode | EcoMotive/src/main/java/com/ecomotive/engine/LogisticsGraph.java:40-42 | a hub is returned exactly when the id is registered, and it is the stored one |
| Dijkstra.MinExists | EcoMotive/src/main/java/com/ecomotive/engine/DijkstraEngine.java:15 | a non-empty queue has an entry of least weight |
| Dijkstra.Poll | EcoMotive/src/main/java/com/ecomotive/engine/DijkstraEngine.java:25 | `poll` returns an entry of least weight and the queue minus that one entry |
| Dijkstra.DijkstraEngine.constructor | EcoMotive/src/main/java/com/ecomotive/engine/DijkstraEngine.java:9-11 | the engine searches the graph it was given |
| Dijkstra.DijkstraEngine.FindBestRoute | EcoMotive/src/main/java/com/ecomotive/engine/DijkstraEngine.java:13-50 | the route is empty exactly when start equals end or the end is unreachable; otherwise it is a path from start to end; no path weighs less under the chosen objective; the three totals are the route's sums. Requires that no leg weighs less than 0 under the chosen objective |
| Dijkstra.DijkstraEngine.Visit | EcoMotive/src/main/java/com/ecomotive/engine/DijkstraEngine.java:25-46 | one iteration for a polled non-destination entry keeps the loop invariant; the first poll of a hub settles it, and a stale entry shortens the queue, so the loop terminates; no best weight is lost or raised |
| Dijkstra.DijkstraEngine.RelaxEdges | EcoMotive/src/main/java/com/ecomotive/engine/DijkstraEngine.java:29-46 | after relaxing every leg of the polled hub, the loop invariant holds again; a stale poll queues nothing; best weights are only ever lowered (the strict `newWeight < best` test) |
| Dijkstra.DijkstraEngine.ReconstructPath | EcoMotive/src/main/java/com/ecomotive/engine/DijkstraEngine.java:52-66 | the walk of the back pointers ends; the route is empty exactly when the end has no back pointer; it is contiguous, ends at the end hub, and consists of the recorded legs; the totals are the sums of its legs |
| Dijkstra.PathPrefix | EcoMotive/src/main/java/com/ecomotive/engine/DijkstraEngine.java:29-44 | a path without its last leg is a path to that leg's source |
| Dijkstra.LowerBound | EcoMotive/src/main/java/com/ecomotive/engine/DijkstraEngine.java:24-25 | no path from the start to an unsettled hub weighs less than the least queued weight |
| Dijkstra.InitInv | EcoMotive/src/main/java/com/ecomotive/engine/DijkstraEngine.java:21-22 | the initial queue and maps (start at weight 0) satisfy the loop invariant |
| Dijkstra.EndPolled | EcoMotive/src/main/java/com/ecomotive/engine/DijkstraEngine.java:27 | when the end hub is polled, its best weight is at most the weight of every path to it |
| Dijkstra.ClosedUnderPaths | EcoMotive/src/main/java/com/ecomotive/engine/DijkstraEngine.java:24 | once every reached hub is settled and relaxed, every hub a path leads to has been reached |
| Dijkstra.Exhausted | EcoMotive/src/main/java/com/ecomotive/engine/DijkstraEngine.java:24 | with an empty queue, a reached end has its least path weight, and an unreached end has no path |
| Dijkstra.TreeSettle | EcoMotive/src/main/java/com/ecomotive/engine/DijkstraEngine.java:25 | settling a reached hub keeps the back-pointer tree and its settle order |
| Dijkstra.QueueSettle | EcoMotive/src/main/java/com/ecomotive/engine/DijkstraEngine.java:25 | the least entry of an unsettled hub carries its best weight; settling it keeps the queue invariant with that weight as the new frontier |
| Dijkstra.PollFresh | EcoMotive/src/main/java/com/ecomotive/engine/DijkstraEngine.java:25 | polling an unsettled hub settles it at its least path weight |
| Dijkstra.PollStale | EcoMotive/src/main/java/com/ecomotive/engine/DijkstraEngine.java:25 | polling a stale entry of a settled hub changes nothing, and all its legs are relaxed already |
| Dijkstra.Settle | EcoMotive/src/main/java/com/ecomotive/engine/DijkstraEngine.java:25-29 | after a poll the relaxation-loop invariant holds; the hub is newly numbered exactly on its first poll |
| Dijkstra.SettleShrinks | EcoMotive/src/main/java/com/ecomotive/engine/DijkstraEngine.java:24 | settling a new hub lowers the number of unsettled hubs, which bounds the loop |
| Dijkstra.TreeRank | EcoMotive/src/main/java/com/ecomotive/engine/DijkstraEngine.java:42-43 | the back-pointer maps are consistent, and some rank strictly decreases along them, so the walk back ends |
| Dijkstra.ImprovesOnlyUnsettled | EcoMotive/src/main/java/com/ecomotive/engine/DijkstraEngine.java:40 | a leg that improves a best weight starts at the polled hub and targets an unsettled hub other than the start, and only on a first poll |
| Dijkstra.TreeRelax | EcoMotive/src/main/java/com/ecomotive/engine/DijkstraEngine.java:41-43 | recording a lower weight and its back pointers keeps the back-pointer tree |
| Dijkstra.QueueRelax | EcoMotive/src/main/java/com/ecomotive/engine/DijkstraEngine.java:44 | queueing the lowered weight keeps the queue invariant |
| Dijkstra.RelaxedRelax | EcoMotive/src/main/java/com/ecomotive/engine/DijkstraEngine.java:41 | lowering an unsettled hub's weight keeps every relaxed leg relaxed |
| Dijkstra.RelaxImproves | EcoMotive/src/main/java/com/ecomotive/engine/DijkstraEngine.java:40-45 | one improving relaxation keeps the relaxation-loop invariant for the next leg |
| Dijkstra.PrefixRelaxed | EcoMotive/src/main/java/com/ecomotive/engine/DijkstraEngine.java:38-41 | improving the target of leg i keeps legs 0..i-1 relaxed and relaxes leg i |
| Dijkstra.ShortestRelax | EcoMotive/src/main/java/com/ecomotive/engine/DijkstraEngine.java:41 | lowering an unsettled hub's weight keeps the settled weights least |
| Dijkstra.RelaxSkips | EcoMotive/src/main/java/com/ecomotive/engine/DijkstraEngine.java:40 | a leg that does not improve its target is relaxed already |
| Dijkstra.InnerDone | EcoMotive/src/main/java/com/ecomotive/engine/DijkstraEngine.java:29-46 | with every leg of the polled hub relaxed, the main loop invariant holds |
| Dijkstra.AllRelaxed | EcoMotive/src/main/java/com/ecomotive/engine/DijkstraEngine.java:29-46 | relaxing all legs of the polled hub makes every leg out of every settled hub relaxed |
| Dijkstra.ChainWeight | EcoMotive/src/main/java/com/ecomotive/engine/DijkstraEngine.java:57-64 | a chain of recorded legs is made of listed legs, and its weight is the difference of the best weights at its ends |
| Dijkstra.BackEdge | EcoMotive/src/main/java/com/ecomotive/engine/DijkstraEngine.java:41-43 | the leg recorded for a reached hub leaves its recorded predecessor, which is reached, and the hub's best weight is the predecessor's plus that leg's weight |
| Dijkstra.LowerRaisesNone | EcoMotive/src/main/java/com/ecomotive/engine/DijkstraEngine.java:40-41 | giving a hub a first or a strictly lower best weight raises no best weight |
| Dijkstra.ResultCorrect | EcoMotive/src/main/java/com/ecomotive/engine/DijkstraEngine.java:49 | the reconstructed route is a least-weight path, and it is empty exactly when start equals end or the end is unreachable |
| NetworkService.Values | EcoMotive/src/main/java/com/ecomotive/service/NetworkService.java:29-31 | one quantity of every route, in list order |
| NetworkService.GetNetworkStatistics | EcoMotive/src/main/java/com/ecomotive/service/NetworkService.java:23-47 | the counts pass through; each average is the mean of that quantity over all routes (times the route count it gives the sum), and 0 for no routes |
| NetworkService.AverageBounds | EcoMotive/src/main/java/com/ecomotive/service/NetworkService.java:29-42 | if every route's value lies in [lo, hi], so does the average |
| NetworkService.AveragesNonNegative | EcoMotive/src/main/java/com/ecomotive/service/NetworkService.java:29-42 | routes with no negative value give non-negative averages |
| MapView.CityCoordinates | ecomotive-frontend/src/components/MapView.jsx:21-27 | a position exists exactly for the five listed codes; any other code has none |
| MapView.CityPositions | ecomotive-frontend/src/components/MapView.jsx:21-27 | the five table entries: BHO, MUM, DEL, LON and HAM with their latitude and longitude |
| MapView.Resolved | ecomotive-frontend/src/components/MapView.jsx:37-40 | zero points for an unknown code, otherwise its one position |
| MapView.PolylinePositions | ecomotive-frontend/src/components/MapView.jsx:56-62 | no route data or an empty path gives the empty polyline; otherwise the result is the path's polyline, with two points per leg whose ends both resolve |
| MapView.MapBoundsUpdater | ecomotive-frontend/src/components/MapView.jsx:33-47 | the view is fitted exactly when the path is non-empty and some end resolves; it is fitted to each leg's resolving source, then target, in leg order |
| MapView.PolylineAllResolve | ecomotive-frontend/src/components/MapView.jsx:56-62 | when every leg resolves, the polyline has 2n points: leg i's start at 2i and its end at 2i+1 |
| MapView.PolylineSkipsUnresolved | ecomotive-frontend/src/components/MapView.jsx:60-62 | a leg with an unresolved end contributes nothing: the polyline equals that of the resolving legs alone |
| MapView.FilterAppend | ecomotive-frontend/src/components/MapView.jsx:62 | filtering a list with one more element at the end adds that element only if it passes |
| MapView.PolylineAppend | ecomotive-frontend/src/components/MapView.jsx:62 | appending a leg appends its pair, or nothing |
| MapView.PolylineLength | ecomotive-frontend/src/components/MapView.jsx:56-62 | the polyline has exactly 2 points per leg whose two ends resolve, and those legs keep their order |
| MapView.BoundsLength | ecomotive-frontend/src/components/MapView.jsx:35-41 | at most 2 bounds points per leg; exactly 2n when every end resolves; none when no end resolves |
| MapView.PolylineWithinBounds | ecomotive-frontend/src/components/MapView.jsx:36-62 | the polyline points are a subsequence of the bounds points |
| MapView.DrawnImpliesFitted | ecomotive-frontend/src/components/MapView.jsx:85 | whenever a polyline is drawn, the view is also fitted (non-empty path with resolved points) |
| MapView.TwoLegScenario | ecomotive-frontend/src/components/MapView.jsx:21-62 | for BHO to DEL to MUM, the polyline and the bounds are both [BHO, DEL, DEL, MUM] |
| Seqs.Filter | ecomotive-frontend/src/pages/RouteHistory.jsx:51 | `filter` keeps exactly the passing elements and is no longer than its input |
| Seqs.FilterSubsequence | ecomotive-frontend/src/pages/RouteHistory.jsx:51 | the kept elements keep their original order (a subsequence) |
| Seqs.FilterCount | ecomotive-frontend/src/pages/RouteHistory.jsx:51 | every copy of a passing element is kept, and no copy of a failing one |
| Seqs.FilterIdempotent | ecomotive-frontend/src/pages/RouteHistory.jsx:51 | filtering twice by the same test equals filtering once |
| Seqs.FilterKeepsAll | ecomotive-frontend/src/pages/RouteHistory.jsx:51 | a test that every element passes keeps the whole list |
| Seqs.SubsequenceLength | ecomotive-frontend/src/components/MapView.jsx:85 | a subsequence is no longer than the list it comes from |
| Analytics.FirstIndex | ecomotive-frontend/src/pages/NetworkAnalytics.jsx:34-35 | the position of the first route with a given mode |
| Analytics.CountModes | ecomotive-frontend/src/pages/NetworkAnalytics.jsx:33-36 | the keys are the distinct modes in first-occurrence order, and each count is that mode's number of routes |
| Analytics.GroupByMode | ecomotive-frontend/src/pages/NetworkAnalytics.jsx:45-53 | the keys are the distinct modes in first-occurrence order, and each entry holds that mode's cost, CO2 and time values in route order |
| Analytics.GroupStep | ecomotive-frontend/src/pages/NetworkAnalytics.jsx:50-52 | pushing one route's cost, CO2 and time onto its mode's lists gives the grouping of the routes up to and including it |
| Analytics.ModeDistribution | ecomotive-frontend/src/pages/NetworkAnalytics.jsx:38-42 | one slice per key with its count, coloured palette[i mod 3] |
| Analytics.AverageByMode | ecomotive-frontend/src/pages/NetworkAnalytics.jsx:55-68 | one bar per key, whose value is the mean of that key's gathered values |
| Analytics.FetchStats | ecomotive-frontend/src/pages/NetworkAnalytics.jsx:22-110 | on success: totals and overall averages from the server; one slice per distinct mode with its route count and palette colour; each per-mode bar times the mode's count is the sum of its values. On failure: the fallback data |
| Analytics.DistributionSeries | ecomotive-frontend/src/pages/NetworkAnalytics.jsx:33-42 | slices built from the counting dictionary carry each mode's route count |
| Analytics.AverageSeries | ecomotive-frontend/src/pages/NetworkAnalytics.jsx:45-68 | bars built from the grouping dictionary are the per-mode means of the route values |
| Analytics.BarMean | ecomotive-frontend/src/pages/NetworkAnalytics.jsx:57 | a bar holding the mean of its mode's values, times the mode's route count, is the sum of those values |
| Analytics.GroupedField | ecomotive-frontend/src/pages/NetworkAnalytics.jsx:50-52 | the grouped list of one quantity is that quantity's values for the mode |
| Analytics.ModeAbsentCount | ecomotive-frontend/src/pages/NetworkAnalytics.jsx:35 | a mode not seen yet has count 0 (`|| 0`) |
| Analytics.ModeAbsentValues | ecomotive-frontend/src/pages/NetworkAnalytics.jsx:47-49 | a mode not seen yet has no values yet, so it starts with empty lists |
| Analytics.ModesCover | ecomotive-frontend/src/pages/NetworkAnalytics.jsx:34-35 | the listed modes are exactly the modes some route uses |
| Analytics.ModesDistinct | ecomotive-frontend/src/pages/NetworkAnalytics.jsx:38 | no mode is listed twice |
| Analytics.CountPositive | ecomotive-frontend/src/pages/NetworkAnalytics.jsx:35 | every listed mode has at least one route |
| Analytics.ValuesMatchCount | ecomotive-frontend/src/pages/NetworkAnalytics.jsx:50-53 | a mode has as many gathered values as it has routes |
| Analytics.CountsSumToTotal | ecomotive-frontend/src/pages/NetworkAnalytics.jsx:33-36 | the per-mode counts add up to the number of routes |
| Analytics.TotalCountStep | ecomotive-frontend/src/pages/NetworkAnalytics.jsx:35 | one more route adds one to the total over a list of distinct modes that contains its mode, and nothing otherwise |
| Analytics.ModesInFirstOccurrenceOrder | ecomotive-frontend/src/pages/NetworkAnalytics.jsx:38 | the modes are ordered by the index of their first route |
| Analytics.TwoRecordScenario | ecomotive-frontend/src/pages/NetworkAnalytics.jsx:33-57 | a truck record (cost 200) and a rail record (cost 150) give modes [TRUCK, RAIL] with one route each and their own costs; the overall average cost is 175 |
| Analytics.FallbackConsistent | ecomotive-frontend/src/pages/NetworkAnalytics.jsx:84-110 | the fallback series have three entries each, palette colours in turn, and the same mode order |
| HubManagementPage.NextRouteId | ecomotive-frontend/src/pages/HubManagement.jsx:42 | a new id exceeds the current number of routes |
| HubManagementPage.HubManagement.constructor | ecomotive-frontend/src/pages/HubManagement.jsx:6-28 | the five seed hubs and three seed routes, cleared forms, both forms closed |
| HubManagementPage.HubManagement.AddHub | ecomotive-frontend/src/pages/HubManagement.jsx:30-36 | with id, name, lat and lon all non-empty: appends the hub with parsed coordinates, clears the form, closes it. Otherwise nothing changes. The routes are untouched |
| HubManagementPage.HubManagement.AddRoute | ecomotive-frontend/src/pages/HubManagement.jsx:38-50 | with from, to, cost, time and co2 non-empty (mode and from-vs-to are not checked): appends the route with id length+1 and parsed numbers, resets the form to mode TRUCK, closes it. Otherwise nothing changes |
| HubManagementPage.HubManagement.DeleteHub | ecomotive-frontend/src/pages/HubManagement.jsx:52-55 | the hubs with that code and the routes from or to it are filtered out; the forms stay |
| HubManagementPage.HubManagement.DeleteRoute | ecomotive-frontend/src/pages/HubManagement.jsx:57-59 | the routes with that id are filtered out; the hubs stay |
| HubManagementPage.HubManagement.EditHubId | ecomotive-frontend/src/pages/HubManagement.jsx:108 | the hub-code field stores the typed text upper-cased; nothing else changes |
| HubManagementPage.HubManagement.ToggleAddHub | ecomotive-frontend/src/pages/HubManagement.jsx:88 | the add-hub form flips between open and closed |
| HubManagementPage.HubManagement.ToggleAddRoute | ecomotive-frontend/src/pages/HubManagement.jsx:181 | the add-route form flips between open and closed |
| HubManagementPage.DeleteHubCascades | ecomotive-frontend/src/pages/HubManagement.jsx:54 | after a hub is deleted, no route starts or ends there; every other route keeps all its copies, in order |
| HubManagementPage.DeleteHubRemovesHub | ecomotive-frontend/src/pages/HubManagement.jsx:53 | exactly the hubs with that code are removed; the rest keep their copies and order |
| HubManagementPage.DeleteRouteRemovesOnly | ecomotive-frontend/src/pages/HubManagement.jsx:58 | exactly the routes with that id are removed; the rest keep their copies and order |
| HubManagementPage.AddRouteKeepsNumbering | ecomotive-frontend/src/pages/HubManagement.jsx:42 | without deletions, ids stay 1, 2, ..., n |
| HubManagementPage.RouteIdCollidesAfterDelete | ecomotive-frontend/src/pages/HubManagement.jsx:42 | after deleting any route but the last from routes numbered 1..n, the next id equals the id of the last remaining route |
| HubManagementPage.DeleteNumbered | ecomotive-frontend/src/pages/HubManagement.jsx:58 | deleting an id other than the last from a numbered list removes one route and keeps the last |
| HubManagementPage.HubIdUpperCased | ecomotive-frontend/src/pages/HubManagement.jsx:108 | a stored hub code has no lower-case letter, and retyping it changes nothing |
| RouteHistoryPage.FilterHistory | ecomotive-frontend/src/pages/RouteHistory.jsx:49-51 | 'all' gives the history unchanged; any other value gives exactly the entries with that priority |
| RouteHistoryPage.PriorityColor | ecomotive-frontend/src/pages/RouteHistory.jsx:57-64 | COST, TIME and CO2 get their fixed colours; every other value gets #6b7280 |
| RouteHistoryPage.PriorityLabel | ecomotive-frontend/src/pages/RouteHistory.jsx:66-73 | COST, TIME and CO2 get their captions; every other value is returned unchanged |
| RouteHistoryPage.FilterCaption | ecomotive-frontend/src/pages/RouteHistory.jsx:105 | the 'all' button has its own caption; the others show the priority label |
| RouteHistoryPage.RouteHistory.constructor | ecomotive-frontend/src/pages/RouteHistory.jsx:6-47 | the three seed entries, with filter 'all' |
| RouteHistoryPage.RouteHistory.FilteredHistory | ecomotive-frontend/src/pages/RouteHistory.jsx:49-51 | the shown list is the history under 'all'; otherwise it holds exactly the history entries with the filter's priority, in history order |
| RouteHistoryPage.RouteHistory.SetFilter | ecomotive-frontend/src/pages/RouteHistory.jsx:101 | selects the filter value; the history stays |
| RouteHistoryPage.RouteHistory.DeleteRoute | ecomotive-frontend/src/pages/RouteHistory.jsx:53-55 | the entries with that id are filtered out; the filter stays |
| RouteHistoryPage.FilterSubsequenceOfHistory | ecomotive-frontend/src/pages/RouteHistory.jsx:49-51 | the filtered list keeps the history order |
| RouteHistoryPage.FilterHistoryIdempotent | ecomotive-frontend/src/pages/RouteHistory.jsx:49-51 | filtering the filtered list again changes nothing |
| RouteHistoryPage.FilterHistoryKeepsMatches | ecomotive-frontend/src/pages/RouteHistory.jsx:51 | a priority filter keeps every copy of every matching entry |
| RouteHistoryPage.FilterHistoryUniform | ecomotive-frontend/src/pages/RouteHistory.jsx:51 | a list saved under one priority passes that filter unchanged |
| RouteHistoryPage.DeleteRouteRemovesOnly | ecomotive-frontend/src/pages/RouteHistory.jsx:54 | exactly the entries with that id are removed; the rest keep their copies and order |
| RouteHistoryPage.PriorityColorsDistinct | ecomotive-frontend/src/pages/RouteHistory.jsx:57-64 | the three priorities have three different colours, none of them the default grey |
| RouteHistoryPage.PriorityLabelChanges | ecomotive-frontend/src/pages/RouteHistory.jsx:66-73 | a label differs from its input exactly when the input is one of the three priorities |

## Left out

- The HTTP requests are left out: the axios calls and the Spring controllers, repositories and service wiring. `Analytics.FetchStats` receives the two responses, or their failure, as a parameter. `NetworkService.GetNetworkStatistics` receives the repository counts and the route list as parameters.
- Rendering is left out: the charts, markers and animations, and the `fitBounds` padding and zoom options. The model stops at the point lists and series.
- Floating point is modelled as exact `real` arithmetic. Left out:
  - rounding
  - `Double.MAX_VALUE` as "infinity" (a missing map key stands for it)
  - NaN. In JavaScript, `sum / length || 0` turns a NaN from a non-numeric value into 0; the model has no non-numeric values.
- `parseFloat` is a parameter of `HubManagementPage.HubManagement.AddHub` and `AddRoute`.
- Text.ToUpperCase: covers ASCII letters only. The locale- and Unicode-dependent cases of Java's and JavaScript's `toUpperCase` are left out.
- MapView.CityCoordinates: `cityCoordinates` is a plain object literal, so a code naming an inherited property (`constructor`, `toString`, `valueOf`, `__proto__`) passes the `if (start)` test and hands a non-position to the bounds and the polyline. The model treats every code outside the five entries as having no position.
- Analytics.FetchStats: follows insertion order for the keys of the mode dictionaries. JavaScript lists integer-like keys (a mode such as "1") first, and a mode such as "constructor" or "__proto__" would hit `Object.prototype`. Neither case is modelled.
- Dijkstra.DijkstraEngine.FindBestRoute: requires that no leg weighs less than 0 under the chosen objective; the other two quantities may be anything. The source does not check this. With a negative weight the result need not be least, and a negative cycle keeps the loop running.
- Dijkstra.DijkstraEngine.FindBestRoute: lets any least entry leave the queue. `PriorityQueue`'s own tie-breaking between equal weights is not modelled, so the exact route among equal-weight routes is not determined.
- Edge and hub records are values. Java's and React's aliasing of live lists, such as the list that `getEdgesFrom` returns, is not modelled.
- The JPA `id` of `Edge` and the records' getters, setters and `toString` are left out. The hub `latitude`/`longitude` of `Node` are carried but not used by any computation.
- `Main.java` is a demonstration program and is not part of this model. So are the Dashboard, CarbonImpact, About, Navigation and App screens.
- The other form inputs of the hub management page (name, coordinates, route fields) and its Cancel buttons are plain field assignments. Only the upper-casing hub-code input and the two toggles are modelled.
