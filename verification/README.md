# Verification of the incident correlator

This project models three connected parts of the incident service and proves properties of them:

1. **Correlation.** An alert is added to the most recent live incident of its key, or opens a new
   one. `Correlation`, `LabelReading`, `MemoryStore`, `Runs`, `IncidentFields`, `Sessions` and
   `Correlator` treat calls that come one after the other; `Machine`, `QuietRuns`, `Conservation`, `TwoCalls`, `Overlap` and `OverlapRuns`
   treat calls that interleave, with the alert list of an incident modelled as a Go slice over a
   shared backing array.
2. **The two stores.** `PgTables`, `PostgresStore`, `PgRuns`, `PgFields` and `SideColumns` model the
   Postgres store down to its SQL statements; `StoreSimulation` relates it to the in-memory store;
   `PgInterleaving`, `PgPayloads` and `SideColumnRaces` treat concurrent calls over it.
3. **The topology index.** `TopologyGraph` is the indexed graph, `TopologyLaws`, `TopologyScan` and
   `TopologyAnswers` compare it with a scan of the list, and `TopologyClient` follows watch events.

Main results:

- The incidents of a key are exactly the sessions that an offline split of its alerts gives
  (`Sessions.OnlineIsOffline`), and this carries over to every interleaving in which calls on the
  same key do not overlap (`QuietRuns.Reduction`).
- In such interleavings every copy of an incident that was ever handed out keeps its meaning,
  although appends write into the arrays behind the copies (`QuietRuns.SnapshotsKeepTheirMeaning`).
- Every field of a stored incident is determined by the history of its run and by labels alone, in
  memory (`IncidentFields.FieldsAreRead`) and in the columns of its row (`PgFields.ColumnsAreRead`),
  and what is read back from Postgres has these fields (`PgFields.RunIsReadBack`,
  `PgFields.ReadAgreesWithMemory`).
- The two stores agree all along a run if and only if no lookup lands exactly on the window
  boundary (`StoreSimulation.StoresAgreeIff`).
- In every interleaving of any number of calls, the incidents hold the alerts of all finished calls
  if and only if no save is stale: none comes from a call since whose lookup the incident was saved
  (`Conservation.ConservationIff`).
- What two overlapping calls leave in an incident is determined for every order of their steps
  (`Overlap.TwoSavesLeave`).
- Over Postgres no fingerprint is ever lost, whatever the interleaving (`PgInterleaving.NothingIsLost`),
  and the last payload wins all along a run if and only if no save is stale
  (`PgPayloads.LastPayloadWinsIff`).
- The one-hop view agrees with a scan of the list, and the handshake count holds, exactly when the
  edge keys tell ends apart (`TopologyScan.SubgraphEdgesAreScanned`, `TopologyScan.Handshake`).
- After any history of watch events, the answer for a service is, node by node and edge by edge, the
  scan of the list that the last effective event carried (`TopologyAnswers.ClientAnswersScan`).

What is open in the source is carried by the events and steps and constrained only to what the
source allows: the answer of a lookup among ties, the order in which map entries and equal
`starts_at` rows come, the spare capacity after an append, the identifier drawn, the clock readings.

Results about the code that a reader may not expect:

- The lookups differ on the boundary: the in-memory store keeps an incident last alerted exactly
  the window ago, the SQL statement does not. At the first such lookup the stores part
  (`StoreSimulation.TieParts`), and there are runs in which they do (`StoreSimulation.StoresCanPart`).
- Stale saves lose alerts of the in-memory store: an incident's version counts its saves, and it holds
  the alerts of all calls that saved it, exactly when no save was stale
  (`Conservation.VersionCountsSavesIff`, `Conservation.HoldsItsSaversIff`).
- Overlap can leave two live incidents of one key: two calls that both find nothing each open one
  (`OverlapRuns.TwoCanBeLive`), and a stale save undoes a resolution
  (`OverlapRuns.StaleSaveRevives`). Without a stale save on the key there is at most one
  (`Conservation.AtMostOneLiveWithoutStaleSave`).
- When two calls write to one incident of the in-memory store, both alerts are held if and only if
  the second to save looked the incident up after the first had saved; otherwise exactly one is
  (`Overlap.OverlapLosesAnAlert`). As a rule it is that of the second to save. But if the array had a
  free cell and the second to save appended first, it is that of the first to save, while the severity
  counted is still that of the second (`Overlap.FirstSurvivesIff`). Runs that show both are
  `OverlapRuns.ConservationFailsUnderOverlap` and `OverlapRuns.LastSaverCanLose`.
- A stale append can change the stored incident although nothing is saved
  (`Overlap.CopySurvivesBuildIff`, `OverlapRuns.StoredIncidentCanChange`).
- A save over Postgres checks for the incident and updates it in two statements. The attempts count
  all increments all along a run if and only if none commits in between
  (`SideColumnRaces.AttemptsCountIff`, `SideColumnRaces.AnIncrementCanBeLost`).
- Over Postgres a stale save can put an older payload back (`PgPayloads.PayloadKeptIff`,
  `PgPayloads.PayloadCanGoBack`).
- Keys join labels with `/` and edge keys join identifiers with `->`; which of them are ambiguous
  is stated exactly (`Correlation.KeyIsUnambiguousIff`, `TopologyLaws.EndsKnownByKeyIff`), with an
  edge that the query hides (`TopologyScan.ArrowsHideAnEdge`).
- Incident identifiers are microsecond timestamps. A repeated one overwrites an incident: the
  incidents hold as many alerts as were submitted if and only if no identifier was drawn while in
  use (`Runs.AllAreHeldIff`, `Runs.RepeatedIdLosesAlert`).
- The severity of an incident is the greatest in string order, as the tests of the correlator say.
  Of "info", "warning" and "critical" that is the most urgent one if and only if no alert is
  critical or all are (`Runs.SeverityIsMostUrgentIff`).

Assumptions, each visible as a condition: a drawn identifier is not in use (only where a theorem
says so); the clock does not go back between calls on a key; a resolved incident is not reopened;
a transaction commits or leaves no trace. JSON encoding of labels, annotations and topology is the
identity; version numbers are reduced modulo 2^32 where they enter the 32-bit column.

`dafny verify dfyconfig.toml` checks the project.

## Model

| member | source | states |
|---|---|---|
| Lexicographic.Trichotomy | internal/correlation/correlator.go:88-90 | of two strings, exactly one of less, equal, greater holds under the order that `>` uses |
| Lexicographic.Transitive | internal/correlation/correlator.go:88-90 | that order is transitive |
| Lexicographic.FirstDifferenceDecides | internal/correlation/correlator.go:88-90 | a string is less exactly when, at the first difference, it ends or has the smaller character |
| Lexicographic.MaxOfIsMaximum | internal/correlation/correlator.go:87-90 | keeping the greater severity alert by alert ends in a member that no other exceeds |
| Lexicographic.MaxOfIgnoresOrder | internal/correlation/correlator.go:87-90 | the result is the same for every order of arrival |
| LabelReading.ServiceIsRead | internal/correlation/correlator.go:105-116 | the service is the value of the first of the labels service, app and deployment that is present and not empty, and "unknown" exactly when there is none |
| LabelReading.SeverityIsRead | internal/correlation/correlator.go:118-123 | the severity is the value of the severity label, "unknown" if it is absent or empty |
| LabelReading.KeyIsRead | internal/correlation/correlator.go:97-103 | the key is the cluster label, the namespace label and that service, joined by slashes |
| LabelReading.SameServiceLabelSameKey | internal/correlation/correlator.go:97-116 | alerts with the same cluster, namespace and non-empty service labels have one key, whatever other labels they have |
| Correlation.KeyIdentifiesScope | internal/correlation/correlator.go:97-103 | with slash-free cluster and namespace, keys are equal exactly when cluster, namespace and primary service are |
| Correlation.KeyIsUnambiguousIff | internal/correlation/correlator.go:97-116 | exactly which alerts have a key that no alert of another scope can have |
| Correlation.GreatestIsMostUrgentIff | internal/correlation/correlator.go:87-90 | of severities among info, warning and critical the greatest string is the most urgent one exactly when none is critical or all are |
| MemoryStore.InMemoryIncidentStore.Save | internal/store/store.go:40-46 | the whole new store: the incident under its identifier, all others unchanged |
| MemoryStore.InMemoryIncidentStore.FindOpenByCorrelationKey | internal/store/store.go:48-72 | none exactly when nothing is live, else a live incident that no live one is later than, whatever the order of the walk |
| MemoryStore.InMemoryIncidentStore.List | internal/store/store.go:74-83 | every incident once |
| MemoryStore.LookupIsDetermined | internal/store/store.go:51-66 | with at most one live incident the answer does not depend on the order of the walk |
| Correlator.NextIncident | internal/correlation/correlator.go:53-91 | a new incident with every field read from the alert, the clock and the graph's answer; or the found one with the alert appended and the times recorded, the severity raised if that is greater, and no other field changed |
| Correlator.Correlator.ProcessAlert | internal/correlation/correlator.go:43-95 | one step of a sequential run: some admissible lookup answer, and the store after the corresponding event |
| Runs.StoreRecords | internal/correlation/correlator.go:62-91 | in every run, version is the alert count, severity the maximum, and all alerts have the incident's key |
| Runs.SeverityIsMaximum | internal/correlation/correlator.go:67-90 | severity is the string maximum of the severities received, in whatever order they came |
| Runs.SeverityIsMostUrgentIff | internal/correlation/correlator.go:67-90 | an incident of graded alerts has their most urgent severity exactly when none of them is critical or all are |
| IncidentFields.FieldsAreRead | internal/correlation/correlator.go:53-91 | in every run, for every stored incident: service, cluster, environment and key are read from the labels of the alert that opened it; topology, creation and first alert time are those of that submission; alerts, version, severity, last alert and update time are those its submissions make; the state is the last it was moved to |
| Runs.IncidentsAreHomogeneous | internal/correlation/correlator.go:55-69 | with slash-free labels all alerts of an incident share its cluster and service, and one namespace |
| Runs.SubmissionsAreHeld | internal/correlation/correlator.go:53-94 | every submission is held ever after by the incident it was written to |
| Runs.AllAreHeldIff | cmd/main.go:28-32 | when identifiers may repeat, the incidents hold at most the submitted alerts, and all of them exactly when every identifier was unused when drawn |
| Runs.RepeatedIdLosesAlert | cmd/main.go:28-32 | a run in which two keys draw one identifier and the first alert is in no incident |
| Sessions.OnlineIsOffline | internal/correlation/correlator.go:43-95 | the incidents of a key are the offline sessions of its alerts, with the same contents, times and resolution, and all but the last are over |
| Sessions.FoundIsLastSession | internal/store/store.go:51-66 | a lookup finds the last session if it joins, and nothing otherwise |
| Sessions.AtMostOneLiveEver | internal/store/store.go:51-66 | from the latest lookup on, at most one incident of a key is live, so the lookup is unique |
| Sessions.SessionsKeepEveryAlert | internal/correlation/correlator.go:68-83 | the sessions concatenated are the submitted alerts, in order |
| Sessions.IncidentsHoldTheSubmissions | internal/correlation/correlator.go:53-94 | the incidents of a key in opening order, concatenated, are exactly its submissions, once each |
| Sessions.AdjacentAlertsShareIff | internal/correlation/correlator.go:46-84 | adjacent alerts share an incident exactly when the gap from recorded time to later lookup is within the window and no resolve came between |
| Machine.AppendAppends | internal/correlation/correlator.go:83 | appending to a slice gives its view plus the new element, in place or in a new array |
| Machine.AppendKeeps | internal/correlation/correlator.go:83 | exactly which views an append leaves alone |
| Machine.NextSafe | internal/correlation/correlator.go:46-94 | every step of every interleaving keeps copies, arrays and calls consistent |
| Machine.SafetyUnderEveryInterleaving | internal/correlation/correlator.go:82-94 | version is the alert count, all alerts were submitted with the key, no submission is held twice, no two incidents share an array |
| QuietRuns.NextCalm | internal/correlation/correlator.go:46-94 | with no overlap on a key, each step keeps the store a sequential one and all handed-out copies unchanged |
| QuietRuns.Reduction | internal/correlation/correlator.go:46-94 | such an interleaving leaves the store of the sequential run in save order, and that run is valid |
| QuietRuns.HandedOutIsSeen | internal/store/store.go:29-72 | a lookup and a read hand out the stored copy, and it counts as handed out from then on |
| QuietRuns.SnapshotsKeepTheirMeaning | internal/store/store.go:29-72 | a copy handed out by a lookup or a read denotes the same incident in all later states |
| QuietRuns.QuietRunsConserve | internal/correlation/correlator.go:46-94 | every finished call's alert is held, and the incidents of a key hold its alerts in save order |
| Conservation.VersionCountsSavesIff | internal/correlation/correlator.go:82-94 | in every interleaving the version of an incident is at most the number of its saves, and equal to it exactly when no save was stale |
| Conservation.HoldsItsSaversIff | internal/correlation/correlator.go:48-94 | with no append waiting to be saved, the calls whose alerts an incident holds are among those that saved it, and are all of them exactly when no save was stale |
| Conservation.ConservationIff | internal/correlation/correlator.go:46-94 | for any number of calls, the alerts of all finished calls are held by their incidents exactly when no save to any incident was stale |
| Conservation.AtMostOneLiveWithoutStaleSave | internal/store/store.go:48-72 | without reopening, and without a stale save on the key, at most one incident of the key is live, now and later |
| Overlap.TwoSavesLeave | internal/correlation/correlator.go:48-94 | for every order of the lookups, appends and saves of two calls on one incident: the alerts it holds in the end, and its severity |
| Overlap.FirstSurvivesIff | internal/correlation/correlator.go:48-94 | exactly when the alert of the first to save is held in the end, and exactly when that of the second is |
| Overlap.OverlapLosesAnAlert | internal/correlation/correlator.go:82-94 | both alerts are held exactly when the calls did not overlap; if they did exactly one is, and the severity of the first to save is not counted |
| Overlap.CopySurvivesBuildIff | internal/correlation/correlator.go:83 | exactly when an append changes what another copy shows, stored or handed out |
| OverlapRuns.ConservationFailsUnderOverlap | internal/correlation/correlator.go:48-94 | a run in which all calls finish and one alert is in no incident |
| OverlapRuns.LastSaverCanLose | internal/correlation/correlator.go:82-94 | a run in which the last to save loses its alert and keeps its severity |
| OverlapRuns.TwoCanBeLive | internal/correlation/correlator.go:48-80 | a run in which two calls find nothing, each opens an incident, and both incidents of the key are live |
| OverlapRuns.StaleSaveRevives | internal/correlation/correlator.go:82-94 | a run in which a stale save reopens a resolved incident beside the one opened since |
| OverlapRuns.SecondSaverLosesInARun | internal/correlation/correlator.go:48-94 | the exact conditions for two calls apply to runs that exist, with the second to save as the one that loses its alert |
| OverlapRuns.StoredIncidentCanChange | internal/store/store.go:40-46 | a run in which one append and no save changes what the stored incident shows |
| PgTables.Int32 | internal/store/postgres.go:84 | the 32-bit column holds the version modulo 2^32, and the version itself when in range |
| PgTables.UpsertUpdates | internal/storage/postgres/alerts.sql.go:16-34 | CreateAlert sets the row of its incident and fingerprint and no other |
| PgTables.UpsertKeepsUnique | internal/storage/postgres/alerts.sql.go:27 | it keeps at most one row for an incident and a fingerprint |
| PgTables.UpsertAllKeepsLast | internal/store/postgres.go:122-153 | the upsert loop leaves for each fingerprint its last payload in the list |
| PgTables.SaveWellFormed | internal/store/postgres.go:49-160 | a committed save keeps the unique and foreign keys |
| PostgresStore.PostgresIncidentStore.Save | internal/store/postgres.go:49-160 | all or nothing: an error at any statement leaves both tables unchanged, otherwise incident and alerts are saved |
| PostgresStore.PostgresIncidentStore.GetAlertsByIncidentID | internal/storage/postgres/alerts.sql.go:91-124 | exactly the rows of the incident, latest start first |
| PostgresStore.PostgresIncidentStore.RowToDomain | internal/store/postgres.go:209-260 | each field is that of its column, and each alert has the payload of its row, in order |
| PostgresStore.PostgresIncidentStore.GetByID | internal/store/postgres.go:30-46 | the incident with its alert rows, or none, or the error of either statement |
| PostgresStore.PostgresIncidentStore.FindRow | internal/storage/postgres/incidents.sql.go:97-104 | a row of the key, unresolved, later than the cutoff, with the latest alert time; none exactly when there is none |
| PostgresStore.PostgresIncidentStore.FindOpenByCorrelationKey | internal/store/postgres.go:162-183 | that row with its alerts, for the cutoff now minus window, or the error of either statement |
| PostgresStore.PgCorrelator.ProcessAlert | internal/correlation/correlator.go:43-95 | one step of a Postgres run; or an error of the lookup or the save, and no change |
| PgFields.ColumnsAreRead | internal/store/postgres.go:66-120 | in every run each column of an incident row is what the history makes of it: labels of the opening alert, times, version, severity, state, and the time of the latest statement on the row |
| PgFields.RowsCarryPayloads | internal/storage/postgres/alerts.sql.go:16-34 | each alert row holds, column by column, the payload last submitted under its fingerprint |
| PgFields.SavedIsReadBack | internal/store/postgres.go:30-160 | read right after a save, an incident comes back field by field: the version as the column holds it, the creation time kept, of each fingerprint the last alert, latest start first |
| PgFields.RunIsReadBack | internal/store/postgres.go:30-46 | read after any run, every field of an incident is what the history makes of it |
| PgFields.ReadAgreesWithMemory | internal/store/postgres.go:30-46 | without boundary lookups what is read agrees with the in-memory incident in every field but the update time, which is that of the latest statement on the row |
| PgRuns.ReadBack | internal/store/postgres.go:177-182 | the rows read back, in any order, carry the payloads of the table |
| PgRuns.SubmitWritesOneRow | internal/store/postgres.go:122-153 | processing an alert changes the row of its own fingerprint and no other row |
| PgRuns.LastPayloadWins | internal/store/postgres.go:122-157 | after any run each fingerprint row carries its latest payload in that incident, and no fingerprint is lost |
| PgRuns.RowsRecordSubmissions | internal/store/postgres.go:98-120 | a row counts all its submissions and has the maximum of their severities, overwritten ones included |
| StoreSimulation.LookupsAgreeIff | internal/storage/postgres/incidents.sql.go:97-104 | the two lookups agree exactly when no incident is on the boundary |
| StoreSimulation.StoresAgree | internal/store/postgres.go:49-183 | without boundary lookups both stores hold the same incidents, and the rows are the last-wins collapse of the lists |
| StoreSimulation.LookupsAgree | internal/store/store.go:60 | every lookup of such a run finds the same incident in both stores |
| StoreSimulation.TieParts | internal/store/store.go:60 | at the first boundary lookup one store extends an incident and the other opens one |
| StoreSimulation.StoresCanPart | internal/storage/postgres/incidents.sql.go:97-104 | a run of both stores, valid in each, after which one has an incident more |
| StoreSimulation.StoresAgreeIff | internal/store/postgres.go:162-183 | the stores agree all along a run exactly when no lookup is on the boundary |
| SideColumns.SideColumnsSurvive | internal/store/postgres.go:113-115 | attempts count the increments since creation up to the column's maximum; PR, summary and creation time are the last or first written, whatever saves come between |
| SideColumns.OtherColumnsRest | internal/storage/postgres/incidents.sql.go:164-169 | after any sequence of whole calls the other columns of a row are those of the last save, the state the last saved or moved to, and the update time that of the latest statement |
| SideColumnRaces.ColumnKeptIff | internal/store/postgres.go:60-120 | in every interleaving of checks, updates and other statements, attempts, pull request or summary are what the statements make of them all along exactly when at each update they are expected to be what they were at its check |
| SideColumnRaces.AttemptsCountIff | internal/store/postgres.go:60-115 | all along a run the attempts are the increments since creation exactly when none commits between the check and the update of a save |
| SideColumnRaces.AnIncrementCanBeLost | internal/store/postgres.go:60-115 | a run in which an increment commits inside a save and the attempts are 0 again |
| PgInterleaving.NextConserves | internal/store/postgres.go:123-157 | every step of every interleaving keeps all fingerprint rows and incidents |
| PgInterleaving.NothingIsLost | internal/store/postgres.go:123-157 | once a call has succeeded its fingerprint has exactly one row in its incident for ever, with a payload some call submitted |
| PgPayloads.PayloadKeptIff | internal/store/postgres.go:122-153 | a save leaves another fingerprint's row as it is exactly when there was none when its call read the incident, or the row is still the same |
| PgPayloads.LastPayloadWinsIff | internal/store/postgres.go:122-157 | all along a run every row carries the last payload saved exactly when no save comes from a snapshot with another payload than the last one |
| PgPayloads.LastPayloadWinsWithoutOverlap | internal/store/postgres.go:122-157 | without a save between another call's read and its save, the last payload wins, in the order of the saves |
| PgPayloads.PayloadCanGoBack | internal/store/postgres.go:122-153 | a run in which a newer payload is saved and then the older one is put back |
| TopologyGraph.InMemoryGraph.LoadFromServiceGraph | internal/topology/memory_graph.go:27-49 | the whole new graph is that of the list; nothing is left of the old one |
| TopologyGraph.InMemoryGraph.GetNeighbours | internal/topology/memory_graph.go:136-160 | every identifier joined by an edge in either direction, once |
| TopologyGraph.InMemoryGraph.GetSubgraphForService | internal/topology/memory_graph.go:60-134 | an answer with the service, its declared neighbours once each, and the first edge of each key |
| TopologyGraph.InMemoryGraph.FindServiceByLabels | internal/topology/memory_graph.go:162-189 | exactly the services whose labels match, once each |
| TopologyGraph.InMemoryGraph.Stats | internal/topology/memory_graph.go:191-203 | the number of nodes and the sum over the edge map, whatever the order of the walk |
| TopologyLaws.IndexIsFilter | internal/topology/memory_graph.go:43-48 | each index entry is the order-preserving filter of the list by source or by target |
| TopologyLaws.IndexesMirror | internal/topology/memory_graph.go:43-48 | both indexes hold every edge as often as the list does, and only under its ends |
| TopologyLaws.NodesLastWins | internal/topology/memory_graph.go:37-41 | of repeated node identifiers the last is kept |
| TopologyLaws.StatsCountTheList | internal/topology/memory_graph.go:191-203 | `Stats` gives the number of distinct identifiers and the length of the edge list |
| TopologyLaws.EndsKnownByKeyIff | internal/topology/memory_graph.go:109 | exactly which pairs of ends have an edge key of their own |
| TopologyLaws.SameEndKeys | internal/topology/memory_graph.go:107-118 | within one direction the key always tells ends apart |
| TopologyLaws.FirstsOncePerKey | internal/topology/memory_graph.go:104-131 | deduplication keeps every key, once |
| TopologyLaws.FirstsAgreeIff | internal/topology/memory_graph.go:104-131 | deduplicating by key is deduplicating by ends exactly when no two pairs of ends share a key |
| TopologyScan.SubgraphEdgesAreScanned | internal/topology/memory_graph.go:104-131 | the edges of the answer are the outgoing then incoming edges of the list, the first of each pair, exactly when no two pairs around the service share a key; otherwise they are fewer |
| TopologyScan.SubgraphNodesAreScanned | internal/topology/memory_graph.go:82-102 | the nodes are the service, then its declared neighbours once each; the service repeats exactly with a self-loop |
| TopologyAnswers.AnswerIsScan | internal/topology/memory_graph.go:60-134 | the answer is the scan of the list position by position: each edge shown has the ends and kind of the first edge of its key, outgoing then incoming; each node the kind declared last; empty for an undeclared service |
| TopologyAnswers.AnswerIsCompleteIff | internal/topology/memory_graph.go:104-131 | no two edges of an answer have the same ends, and every edge at the service is shown by its ends exactly when keys tell ends apart |
| TopologyAnswers.SearchIsScan | internal/topology/memory_graph.go:162-189 | a search finds exactly the nodes of kind service, as last declared, whose labels have the values asked for |
| TopologyScan.ArrowsHideAnEdge | internal/topology/memory_graph.go:120-131 | a concrete graph in which the string key hides an edge |
| TopologyScan.OneHopIsSymmetric | internal/topology/memory_graph.go:88-102 | of declared u and v, each is in the other's answer or neither is |
| TopologyScan.OneHopIsClosed | internal/topology/memory_graph.go:88-131 | with declared endpoints every edge of an answer joins two of its nodes |
| TopologyScan.Handshake | internal/topology/memory_graph.go:104-131 | over all declared nodes the answers hold each pair of ends at most twice, a self-loop once, parallel edges counting as one, and exactly so when around no node two pairs share a key |
| TopologyScan.SearchOfUnionIff | internal/topology/memory_graph.go:162-189 | searching a union of label maps is intersecting the searches, in every graph, exactly when the maps agree where they overlap |
| TopologyClient.OnlyLastEventCounts | internal/topology/client.go:127-153 | after any history the graph is what the last effective event alone leaves |
| TopologyClient.LastEventLeaves | internal/topology/client.go:127-153 | an add or update that decodes leaves the graph of its list, a delete an empty one, whatever came before |
| TopologyAnswers.ClientAnswersScan | internal/topology/client.go:167-179 | after any history the answer for the prefixed service is the scan of the list of the last effective event, and empty after a delete |
| TopologyClient.ServiceIdMerges | internal/topology/client.go:171-176 | prefixing settles after one step and merges only a bare name with its prefixed form |
| TopologyClient.Client.UpdateGraph | internal/topology/client.go:89-107 | an object that does not decode is an error and leaves the graph, another is loaded |
| TopologyClient.Client.OnAdd | internal/topology/client.go:128-135 | the graph is that of the list the event carries, or as it was if nothing decodes |
| TopologyClient.Client.OnUpdate | internal/topology/client.go:136-143 | the graph is that of the list the event carries, or as it was if nothing decodes |
| TopologyClient.Client.OnDelete | internal/topology/client.go:144-152 | the graph is replaced by an empty one, and the old object is not touched |
| TopologyClient.Client.SubgraphForService | internal/topology/client.go:167-179 | an answer for the prefixed service on the graph the history leaves |

## Left out

- HTTP, message queue, investigation, policy, Slack, Kubernetes and workflow code: plumbing over libraries, or straight-line branching.
- The initial window: the correlator never reads it.
- Reading a node of the topology by its identifier: one map lookup.
- Listing all incidents from Postgres, and the listings by state and of recent alerts: ordered reads of the kind already shown for alert rows.
- The serial number and creation time of alert rows: no statement of the correlator reads them.
- Saturation of durations, rounding of database timestamps, time and JSON syntax: times are integers and encoding is the identity.
- MemoryStore.InMemoryIncidentStore.Save: models incidents as values; that copies share the backing arrays of their alerts is modelled in Machine.
- Machine.SafetyUnderEveryInterleaving: does not model tearing of a slice write; each append is one step, and slices start at the first cell of their array.
- SideColumns.SideColumnsSurvive: speaks of whole calls; a statement that commits between the check and the update of a save is the subject of SideColumnRaces.
- PgInterleaving.NothingIsLost: a save is one step there; no alert row depends on what its check has read, and a create that fails because the incident was created since the check is a failed call.
- PostgresStore.PostgresIncidentStore.FindOpenByCorrelationKey: returns the row's identifier and the rows read beside the incident, so that callers can speak of them; the interleaving of its two statements with other calls is modelled in PgInterleaving.
- The graph's part in opening an incident: what the graph answered is a parameter of each call.
