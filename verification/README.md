# Runscape: a verified model

Runscape observes a developer machine about once per second and serves what it
sees to a dashboard. This project models its tick pipeline in Dafny and proves
what the pipeline's consumers rely on: that deltas describe the held state
exactly, that the timeline tells a possible story about every service, that a
dashboard converges to the daemon's view in every interleaving, and that the
fast or incremental forms (batched deletion, cached resolution, bounded
relaxation, a three-slot restart deque, civil-date arithmetic) refine simple
specifications.

## How it is organised

Objects whose methods update their fields are classes, and each of their
methods is proved against a specification function or predicate. What the
design promises is then proved about those specifications, over all inputs and
over whole runs. Each specification is also told in other words, those of its
inputs and of literal numbers, by a law that does not use it; most of these
laws are the lemmas whose names end in `Exactly`.

| files | subject |
|---|---|
| `Basics`, `Model`, `Sorting`, `Digits` | vocabulary, domain types, sorting and ordered enumeration, digits and text order |
| `Registry`, `RegistryService` | one batch of observations against the services held: the specification, and the class that implements it in place |
| `RegistryRuns`, `RegistryBounds`, `RegistryOrder`, `RegistryHistory` | delta replay and restart history over runs, the eviction bound, independence of observation order, and the whole state and every delta told by nothing but the batches |
| `Deriver`, `EventIds`, `Timeline`, `EventReplay` | the event deriver, event identifiers, what the timeline says over runs of registry and deriver in lock-step, and what a reader can rebuild from it |
| `Topology`, `TopologyFacts`, `Warnings` | edges from sockets, the active warning set, and their continuity over runs |
| `Frames`, `ServerState`, `Announcing`, `FrameFacts`, `Sync`, `Daemon` | the frames and the client's fold, the view update that builds the frames, the proof that frames announce every change, what each frame carries, the protocol as a state machine, and the loop that drives all stages |
| `Calendar`, `Rfc3339` | civil dates, printing and parsing of timestamps |
| `Layout` | the layered graph layout of the dashboard |
| `Retention` | batched deletion over tables as row sets |
| `Projects`, `Resolver`, `Grouping` | project roots, the short-lived cache in front of them, grouping into memberships |

Time is an integer number of nanoseconds. Identifiers are natural numbers whose
order stands for the order of the fixed-width hexadecimal strings.

## Where code and comments disagree

The model follows the code.

* A layout cycle is said to be broken by keeping the first column a service
  lands in (`apps/web/components/ServiceGraph.tsx:184-185`). The loop keeps
  pushing instead: `Layout.Layout` proves that every box is inside the picture
  if and only if the graph has no cycle, and `Layout.MutualCallsOverflow` names
  the smallest picture with a box outside: two services that call each other.
* A crash loop seen as stop and start in different ticks is meant to show as
  degraded (`crates/runscape-core/src/registry.rs:64-72`). The stop clears the
  restarts (`crates/runscape-core/src/registry.rs:275`):
  `RegistryRuns.DegradedExactly` states when a service is degraded, and
  `RegistryRuns.StopStartLoopsStayHealthy` that such loops never are.
  `RegistryRuns.LoopGoesUnnoticed` is a run with any number of stops and starts,
  a nanosecond apart, that ends healthy.
* Event ids are said to sort chronologically
  (`crates/runscape-core/src/ids.rs:88-92`). `EventIds.EventIdOrder` states
  exactly when two of them do; `EventIds.SeventhDigitBreaksOrder` names the
  first pair that does not. A file event carries the time of the change and
  sorts by it, before events that were told earlier: `Daemon.ToldIdsSort`.
* Two containers are said not to collide in a batch
  (`crates/runscape-core/src/registry.rs:478-480`). The replicas of a scaled
  Compose service share one identity
  (`crates/runscape-core/src/identity.rs:121-129`), so they do, and then the
  first names the service and the last measures it. `RegistryOrder.ReplicasDecide`
  proves that the order of a batch is hidden if and only if containers of one
  identity are alike; `RegistryOrder.ReplicasShowOrder` gives the two orders.
* A client gets one snapshot and incremental frames afterwards
  (`crates/runscape-server/src/ws.rs:1-5`), which should keep it current. But
  warnings restored from disk are not known to the engine
  (`crates/runscape-server/src/state.rs:547-554`): one that does not fire in the
  first tick is dropped without a frame. `Announcing.AnnouncedExactly` proves that a
  tick's frames tell the whole truth if and only if this does not happen in it;
  `Sync.ClientsConverge` proves when a dashboard is misled in the end: its
  snapshot is older than the first tick, and some restored warning has not fired
  since. `Announcing.VanishesSilently` and `Sync.RestoredWarningLingers` give an
  input and a run.
* The order of a batch is said not to affect grouping
  (`crates/runscape-core/src/grouping.rs:121-122`). `Grouping.GroupIgnoresOrder`
  proves that it does not if and only if no PID of the batch has two different
  memberships to choose from and no project two descriptions. Distinct PIDs
  settle the first (`Grouping.OneMembershipEach`) but not the second: answers
  are cached for five seconds (`crates/runscape-core/src/project.rs:267-271`),
  so a batch can hold one from before a repository was created and one from
  after, and the first input decides (`Grouping.NewRepositoryShowsOrder`).
  While no marker moves, distinct PIDs are enough (`Grouping.QuietTreeHidesOrder`).
* Resolution walks at most `max_depth` directories
  (`crates/runscape-core/src/project.rs:361-364`). `Projects.ResolutionIsStable`
  states on the markers exactly when the answer is the same all the way up to
  the root: nothing that only the directories further up can see outranks it.
  `Projects.DeepPathsCanWander` gives a tree where it is not.

## Model

| member | source | states |
|---|---|---|
| Registry.ReconcileKeepsWf | crates/runscape-core/src/registry.rs:238-284 | one service through one batch keeps the invariant (sorted ports, health that follows from the deque, stopped services emptied), and it runs afterwards exactly if it was observed |
| Registry.ObservedIsSound | crates/runscape-core/src/registry.rs:504-531 | folding and finishing any well-formed batch gives endpoints sorted by port, host processes with instances and containers without |
| Registry.AscendingPortsAscend | crates/runscape-core/src/registry.rs:504-531 | because endpoints are sorted by port, the adjacent deduplication yields strictly ascending ports |
| Registry.AscendingPortsListsPorts | crates/runscape-core/src/registry.rs:504-531 | those ports are exactly the ports of the endpoints |
| RegistryService.DiffPorts | crates/runscape-core/src/registry.rs:581-612 | the two-pointer merge terminates and yields previous minus current and current minus previous, each port once and ascending |
| RegistryService.DiffAscending | crates/runscape-core/src/registry.rs:589-611 | the merge loop over two ascending lists computes both set differences as ascending lists |
| RegistryService.DedupClosed | crates/runscape-core/src/registry.rs:264-268 | the stop loop's adjacent deduplication records each closed port exactly once |
| RegistryService.Update | crates/runscape-core/src/registry.rs:302-366 | a known service that is observed takes over what was seen of it and the delta gains exactly the facts about it; when it starts or restarts is told by RegistryHistory.DeltaExactly |
| RegistryService.Halt | crates/runscape-core/src/registry.rs:262-284 | an unobserved running service is emptied and stopped, and the delta gains exactly its stop, closed ports and health change |
| RegistryService.EvictStopped | crates/runscape-core/src/registry.rs:368-407 | the two eviction rounds remove exactly the expired services and those that 256 later-seen stopped ones crowd out |
| RegistryService.VictimsAreCrowded | crates/runscape-core/src/registry.rs:389-406 | the front of the sorted candidate list is the set of services with at least 256 stopped ones after them |
| RegistryService.ServiceRegistry.Apply | crates/runscape-core/src/registry.rs:214-300 | the registry keeps its invariant, and state and delta are the ones that RegistryHistory tells by batches: what is held and why (HeldExactly), what goes (EvictedExactly), what is reported (DeltaExactly, HealthToldExactly), each fact once and in order |
| RegistryRuns.DeltaIsConsistent | crates/runscape-core/src/registry.rs:209-360 | no service is in two of started, stopped and restarted, and every health change starts from the health held before |
| RegistryRuns.ReplayStep | crates/runscape-core/src/registry.rs:209-360 | replaying one delta on the old view gives running set, health and ports of the new one |
| RegistryRuns.DeltasRebuildTheRegistry | crates/runscape-core/src/registry.rs:209-360 | over every run, folding the deltas from nothing rebuilds running set, health and port sets of exactly the services held |
| RegistryRuns.EmptyDeltaMeansNoChange | crates/runscape-core/src/registry.rs:126-134 | an empty delta means nothing observable changed |
| RegistryRuns.StoriesAgree | crates/runscape-core/src/registry.rs:170-195 | the three-slot deque and the saturating counter always equal the tail and length of the full restart history told by the deltas |
| RegistryRuns.DegradedExactly | crates/runscape-core/src/registry.rs:182-194 | a service is degraded if and only if it runs, restarted three times since its last stop, and the last three restarts span 0 to 60 s; its counter is the saturated number of restarts since it was registered |
| RegistryRuns.StopStartLoopsStayHealthy | crates/runscape-core/src/registry.rs:275 | a service whose restarts are only ever seen as stop then start is never degraded |
| RegistryRuns.LoopGoesUnnoticed | crates/runscape-core/src/registry.rs:262-284 | for every number of loops there is a run with that many stops and starts, a nanosecond apart, after which the service is healthy |
| RegistryBounds.RetentionIsBounded | crates/runscape-core/src/registry.rs:368-407 | after every batch at most 256 stopped services remain, no observed service is evicted, cap victims precede all retained stopped ones, and no stopped host service that never listened outlives 90 s |
| RegistryBounds.CapSize | crates/runscape-core/src/registry.rs:389-406 | the cap removes exactly the excess over 256 |
| RegistryBounds.CapKeepsNewest | crates/runscape-core/src/registry.rs:389-406 | every victim of the cap precedes every stopped service that stays, by last sighting and id |
| RegistryOrder.FoldDescribed | crates/runscape-core/src/registry.rs:461-502 | what a batch folds to: the metadata of its lowest PID or of some container, all instances and endpoints, and measurements that were taken |
| RegistryOrder.OrderDoesNotMatter | crates/runscape-core/src/registry.rs:221-236 | permuting a batch with distinct PIDs, whose containers of one identity are alike, changes nothing that is folded |
| RegistryOrder.ReplicasDecide | crates/runscape-core/src/registry.rs:476-502 | for every batch with distinct PIDs, all arrangements are observed alike if and only if containers of one identity have equal metadata and no two different measurements |
| RegistryOrder.ReplicasShowOrder | crates/runscape-core/src/registry.rs:476-502 | two containers of one identity that are not alike: the first in the batch names the service or the last measures it, so two arrangements differ |
| RegistryOrder.ApplyIgnoresOrder | crates/runscape-core/src/registry.rs:136-146 | permuting such a batch leaves the registry and the whole delta identical |
| RegistryHistory.DeltaExactly | crates/runscape-core/src/registry.rs:302-338 | over every run, by the observations of the last two batches alone: a service is reported started if and only if it is in this batch and was not in the one before, stopped if and only if the other way round, restarted if and only if it is in both, no process of it is the same and one of them had any; the PIDs carried are those of the oldest process; ports opened and closed are the two differences; every fact once |
| RegistryHistory.PrimaryShown | crates/runscape-core/src/registry.rs:504-531 | the PID that stands for a service is one the batch shows, the oldest process and the lowest PID among those of one age, wherever PIDs tell processes apart |
| RegistryHistory.InstancesExactly | crates/runscape-core/src/registry.rs:504-531 | a service holds its processes in order of PID, none of them made up, and none lost where PIDs tell processes apart |
| RegistryHistory.ContainersNeverRestart | crates/runscape-core/src/registry.rs:322-331 | a service that shows no process is never reported as restarted |
| RegistryHistory.HeldExactly | crates/runscape-core/src/registry.rs:214-366 | everything held of a service after any run: since when, last seen when and as what, emptied exactly if that was not the last batch, and whether any batch of its stay showed it listening |
| RegistryHistory.EvictedExactly | crates/runscape-core/src/registry.rs:368-407 | a service goes if and only if it is not observed and either is a host process that never listened and was silent for more than 90 s, or 256 others of those that stopped are to stay before it |
| RegistryHistory.HealthExactly | crates/runscape-core/src/registry.rs:182-194 | after any run a service is stopped if the last batch does not show it, degraded if the last three restarts told since it last stopped lie within 60 s, else healthy |
| RegistryHistory.HealthToldExactly | crates/runscape-core/src/registry.rs:270-364 | a change of health is reported exactly for the services held before whose health is another afterwards, from the old one to the new one |
| RegistryHistory.ProjectsToldExactly | crates/runscape-core/src/registry.rs:288-299 | a delta names the project of every held service and of no other, and its vectors come in order of service, ports in order within one |
| Deriver.EventDeriver.NextId | crates/runscape-events/src/lib.rs:255-265 | the next identifier is minted from the wrapping counter and recorded |
| Deriver.EventDeriver.Derive | crates/runscape-events/src/lib.rs:39-213 | the events tell every opened and closed port, change of health, started and ended connection of the deltas, once each and in order, all at the time of the tick and in the project the delta names for the service; with them come the lifecycle events Timeline is about, all under consecutive identifiers |
| Deriver.ItemsTell | crates/runscape-events/src/lib.rs:151-212 | so do the specified events, from any waiting stops and under any numbering |
| Deriver.EventDeriver.AnnounceProject | crates/runscape-events/src/lib.rs:215-232 | a project is announced if and only if it never was before |
| Deriver.EventDeriver.FileTouched | crates/runscape-events/src/lib.rs:234-253 | file events take the next identifier of the same sequence |
| Deriver.MintedIdsDiffer | crates/runscape-events/src/lib.rs:255-265 | identifiers of one deriver differ until its 32-bit counter has gone all the way round, whatever the clock does |
| Deriver.MintedIdsSort | crates/runscape-events/src/lib.rs:255-265 | of any two identifiers, whatever the clock does, the one with the earlier millisecond sorts first; in one millisecond the earlier minted, exactly when the sequence numbers sort as text |
| EventIds.EventIdOrder | crates/runscape-core/src/ids.rs:102-104 | one identifier sorts before another if and only if its millisecond is earlier or, in one millisecond, its shorter sequence number does not exceed the leading digits of the longer |
| EventIds.EventIdsSortChronologically | crates/runscape-core/src/ids.rs:88-104 | below 2^48 milliseconds and 2^24 events text order is minting order, both ways |
| EventIds.IdsTellEventsApart | crates/runscape-core/src/ids.rs:102-104 | identifiers are equal exactly for equal milliseconds and equal sequence numbers, up to 2^32 |
| EventIds.IdSpellsItsParts | crates/runscape-core/src/ids.rs:97-104 | read back digit by digit, an identifier gives its milliseconds and its sequence number, behind its prefix |
| EventIds.SeventhDigitBreaksOrder | crates/runscape-core/src/ids.rs:97-104 | the event numbered 2^24 sorts before its predecessor in the same millisecond |
| Timeline.DerivationIsPerService | crates/runscape-events/src/lib.rs:48-148 | one derivation treats every service on its own: its lifecycle events and waiting stop follow from its own change and waiting stop |
| Timeline.TimelineIsLegal | crates/runscape-events/src/lib.rs:39-148 | over every run the lifecycle events of a service follow Down, Started, Up, Restarted, Up, Stopped, Down, and the timeline says Up exactly when the service runs or its stop waits, never both |
| Timeline.EventsAreConserved | crates/runscape-events/src/lib.rs:48-148 | over every run registry stops are stopped events plus debounced restarts plus the waiting stop, starts are started events plus debounced restarts, restarts told are restarts plus debounced ones |
| Timeline.StopIsToldOnce | crates/runscape-events/src/lib.rs:123-148 | while a service stays down, its stop is told by exactly the first derivation more than 2 s later, with its own PID |
| Timeline.ReturnIsTold | crates/runscape-events/src/lib.rs:56-108 | the first start after a stop is one restart with both PIDs when in time, else a start, preceded by the stop if that is untold |
| EventReplay.EventsRebuildTheServices | crates/runscape-events/src/lib.rs:39-182 | over every run, folding the events and nothing else gives the health and the ports of every service that is held, and no port for any other |
| EventReplay.EventsRebuildTheTopology | crates/runscape-events/src/lib.rs:184-210 | and gives the connections there are |
| Topology.BuildIndex | crates/runscape-core/src/topology.rs:170-187 | the tables map each PID to its last claimant and each port to all its listeners in order |
| Topology.TopologyBuilder.Observe | crates/runscape-core/src/topology.rs:109-158 | the topology holds the edges TopologyFacts.EdgesExactly tells, each with its first sighting and a last sighting that does not go back, and the delta names exactly what appeared and went |
| TopologyFacts.EdgeMeaning | crates/runscape-core/src/topology.rs:190-239 | a socket gives an edge if and only if its PID belongs to a service (the last to claim it), a service answers at its remote address (the first one bound to it; without one, the one with the only wildcard endpoint; without exactly one such endpoint, the only one on the port), the two differ, and the port is the remote one |
| TopologyFacts.EdgesExactly | crates/runscape-core/src/topology.rs:109-158 | the edges of a batch are exactly those one of its sockets gives |
| TopologyFacts.UnsharedEdges | crates/runscape-core/src/topology.rs:190-239 | with no PID and no address shared it does not matter which service comes first or last: any owner, any service bound to the address |
| TopologyFacts.AnswersExactly | crates/runscape-core/src/topology.rs:211-239 | with no address shared, the service found is exactly the one bound to the address; without one, the service of the only wildcard endpoint on the port; without exactly one such endpoint, the only service on the port, both ways |
| TopologyFacts.OneWildcard | crates/runscape-core/src/topology.rs:217-223 | there is one wildcard listener exactly when one endpoint of one service on the port has an unspecified address, so a dual-stack service counts twice |
| TopologyFacts.ListenerOnPermuted | crates/runscape-core/src/topology.rs:211-239 | the listener chosen does not depend on the order of candidates when no address belongs to two services |
| TopologyFacts.TopologyIgnoresOrder | crates/runscape-core/src/topology.rs:109-158 | permuting services and sockets gives the identical topology and the identical delta when no PID and no listening address is shared |
| TopologyFacts.SharedPidShowsOrder | crates/runscape-core/src/topology.rs:174-178 | a PID claimed by two services belongs to the later one, so order shows |
| TopologyFacts.SharedListenerShowsOrder | crates/runscape-core/src/topology.rs:214-216 | an address two services listen on is answered by the earlier one, so order shows |
| TopologyFacts.EdgesAreContinuous | crates/runscape-core/src/topology.rs:130-139 | over every run an edge is held exactly while its streak is unbroken, dates from the first batch of the streak and was last seen at its latest time |
| TopologyFacts.LastSeenNeverRewinds | crates/runscape-core/src/model.rs:88-92 | a surviving edge keeps its first sighting and its last sighting never goes back, whatever the clock does |
| TopologyFacts.DeltasRebuildTheTopology | crates/runscape-core/src/topology.rs:142-157 | folding the deltas of a run rebuilds the edges and when each was first seen |
| Warnings.WarningEngine.Evaluate | crates/runscape-events/src/warnings.rs:101-135 | exactly what fired is active, older entries keep their beginning, added and removed are the exact differences, current is the active set newest first |
| Warnings.EvaluatedByIndex | crates/runscape-events/src/warnings.rs:101-135 | an active warning reads as the last one fired under its id and dates from the first since its id became active; added are the first ones fired under a new id; the current list is all active ones, latest seen first |
| Warnings.WarningsAreContinuous | crates/runscape-events/src/warnings.rs:101-135 | over every run a warning is active exactly while it fires, and dates from the evaluation that began its streak |
| Warnings.DeltasRebuildTheActiveSet | crates/runscape-events/src/warnings.rs:101-135 | folding the deltas of a run rebuilds the set of active ids |
| Frames.ReduceIsOverlay | apps/web/lib/daemon.tsx:209-262 | folding one frame changes exactly the services, edges and warnings it mentions, to what it says |
| Frames.FoldIsLastMention | apps/web/lib/daemon.tsx:209-262 | folding any frames leaves every key as its last mention says |
| Frames.ReduceKeepsTidy | apps/web/lib/daemon.tsx:209-262 | the fold never lists a service, an edge or a warning twice |
| ServerState.RuntimeView.ApplyTick | crates/runscape-server/src/state.rs:388-539 | the view becomes the new truth, and the frames are the ones FrameFacts.FramesExactly tells, an edge that is gone under the project it had in the old view |
| ServerState.RuntimeView.Restore | crates/runscape-server/src/state.rs:547-554 | history becomes the view's warnings and the latest 2000 of its events |
| ServerState.RuntimeView.PushEvents | crates/runscape-server/src/state.rs:164-169 | the ring holds the latest 2000 events |
| ServerState.RingKeepsLatest | crates/runscape-server/src/state.rs:164-169 | of everything pushed exactly the last 2000 events are kept, in order |
| FrameFacts.FramesExactly | crates/runscape-server/src/state.rs:427-529 | the frames of any tick, in order: one with the whole record of every service a delta vector names and the evicted ids, one for each project (none first) with an edge that came (by the services now) or went (by the services before) listing exactly those edges, one with the events, one with the warnings; each present if and only if there is something to tell |
| FrameFacts.TickShows | apps/web/lib/daemon.tsx:262-271 | folding the frames of a tick on any view leaves the events of the tick on top of those shown, newest first, cut to 500 |
| FrameFacts.FoldShows | apps/web/lib/daemon.tsx:209-271 | so does folding any frames, with the events they carry |
| Announcing.TopologyMention | crates/runscape-server/src/state.rs:457-482 | split over however many projects, the topology frames of a tick say about each edge exactly what its delta says |
| Announcing.ServicesAnnounced | crates/runscape-server/src/state.rs:427-455 | the service frame carries every change of existence, health, restart count or ports, and nothing untrue |
| Announcing.UnchangedLooks | crates/runscape-server/src/state.rs:587-601 | a service that no delta vector lists looks as it did before |
| Announcing.ConnectionsAnnounced | crates/runscape-server/src/state.rs:457-482 | the topology delta carries the edges before to the edges after |
| Announcing.AnnouncedExactly | crates/runscape-server/src/state.rs:427-529 | folding a tick's frames on the view before gives the view after, for every service, edge and warning, if and only if no warning unknown to the engine is dropped |
| Announcing.VanishesSilently | crates/runscape-server/src/state.rs:547-554 | with one restored warning and nothing observed, the first tick drops the warning and produces no frame at all |
| Sync.ReplayChangesNothing | apps/web/lib/daemon.tsx:209-247 | folding any suffix of all frames ever produced onto a view that looks current changes nothing |
| Sync.NextKeepsInv | crates/runscape-server/src/ws.rs:21-72 | every step (tick, publish, subscribe, snapshot, forward, lag, disconnect, deliver) keeps the invariant that what is on its way leads the client to the server's view, or, while its snapshot is older than the first tick, to the restored warnings with all frames since on top |
| Sync.ClientsConverge | crates/runscape-server/src/ws.rs:21-72 | in every interleaving, from any restored warnings and any earlier state of the dashboard, a served client that has nothing left to receive agrees with the server on every service and edge, and on the warnings too if and only if it is not the case that its snapshot predates the first tick and some restored warning has not fired since; it lists each thing once |
| Sync.ClientsHearEverything | crates/runscape-server/src/ws.rs:21-72 | in every interleaving, a client that has stayed attached since it subscribed and has not fallen behind shows, once nothing is left to receive, the last 500 of the events told since and those in frames not broadcast yet when it subscribed, newest first, on top of what it showed before |
| Sync.RestoredWarningLingers | crates/runscape-server/src/state.rs:547-554 | a run in which a served client with nothing left to receive still shows a restored warning the server has dropped |
| Sync.QueueIsBounded | crates/runscape-server/src/state.rs:38 | no subscriber waits on more than 256 frames, and none falls behind without having waited on that many |
| Daemon.SnapshotLoop.Tick | crates/runscape-server/src/daemon.rs:277-394 | registry, topology, deriver, warnings and view together take one step of the protocol's world and extend the run the timeline is about; the events are those Daemon.TickTells describes, consecutively numbered; over the whole run each project is announced exactly once; from the first tick on the engine knows every warning in the view |
| Daemon.SnapshotLoop.constructor | crates/runscape-server/src/daemon.rs:127-149 | the loop starts from an empty world with any restored warnings and events in the view |
| Daemon.TickTells | crates/runscape-server/src/daemon.rs:291-324 | the events of a tick tell each change of its deltas once and in order, each project nobody knew of exactly once, and the changed files of known roots in order, each in the first project at its root and at the time it changed |
| Daemon.ProjectAtExactly | crates/runscape-server/src/daemon.rs:315-322 | a changed file belongs to the first project listed at its root, and to none if there is no such project |
| Daemon.IdsAreConsecutive | crates/runscape-server/src/daemon.rs:291-324 | every event of a tick carries the next identifier of one sequence, file events included |
| Daemon.ToldIdsSort | crates/runscape-events/src/lib.rs:234-265 | over a whole run, two events sort by the millisecond they carry, a changed file by when it changed, and within one millisecond in the order told exactly when their sequence numbers sort as text |
| Daemon.TickIdsSort | crates/runscape-events/src/lib.rs:234-265 | changed files aside, while the times of the ticks do not go back, the first 2^24 events of a run sort in the order told |
| Calendar.DayRoundTrip | crates/runscape-server/src/dto.rs:43-55 | every day number survives conversion to a date and back, negative eras included |
| Calendar.DateRoundTrip | crates/runscape-server/src/dto.rs:95-103 | every date of the proleptic Gregorian calendar survives conversion to a day number and back |
| Calendar.DateOfDayValid | crates/runscape-server/src/dto.rs:43-55 | month is 1 to 12 and day within the month's length, for every day number |
| Calendar.NextDayIsTomorrow | crates/runscape-server/src/dto.rs:43-55 | consecutive day numbers are consecutive calendar days |
| Calendar.EpochDate | crates/runscape-server/src/dto.rs:43-55 | day zero is 1 January 1970 |
| Calendar.UnixRoundTrip | crates/runscape-server/src/dto.rs:33-56 | for every second count the six fields are in range and recombine to it |
| Calendar.CivilRoundTrip | crates/runscape-server/src/dto.rs:33-56 | every valid civil time is what its second count converts to |
| Calendar.CivilOrderIsTimeOrder | crates/runscape-server/src/dto.rs:33-56 | the order of the six fields is the order of time, both ways |
| Rfc3339.RoundTrip | crates/runscape-server/src/dto.rs:61-92 | parsing a printed time gives it back truncated to the second, for every time in nanoseconds and with any fraction inserted before the Z |
| Rfc3339.ParsePrintedCivil | crates/runscape-server/src/dto.rs:61-92 | every valid civil time in the printed form parses to its second count |
| Rfc3339.PrintedForm | crates/runscape-server/src/dto.rs:21-28 | for years up to 9999 a printed time has the form of section 5.6 of RFC 3339: 20 characters, its marks in place, and the six numbers read back from their digits |
| Rfc3339.StringOrderIsTimeOrder | crates/runscape-server/src/dto.rs:21-28 | for years up to 9999 text order is the order of the times truncated to seconds (section 5.1 of RFC 3339), both ways |
| Layout.Relax | apps/web/components/ServiceGraph.tsx:193-211 | within as many passes as services the depths are witnessed by walks and either settled or at least as long as the passes |
| Layout.RelaxedAcyclic | apps/web/components/ServiceGraph.tsx:197-211 | without cycles the relaxation is settled and every depth is the length of the longest path ending there |
| Layout.RelaxedCyclic | apps/web/components/ServiceGraph.tsx:197-211 | with a cycle some service is pushed at least as deep as there are passes |
| Layout.LayersDecideBounds | apps/web/components/ServiceGraph.tsx:213-219 | the columns used are contiguous without cycles, and with one some column lies past the number counted |
| Layout.GridIsGood | apps/web/components/ServiceGraph.tsx:221-233 | without edges the i-th service by name has its box at column i % w and row i / w of a grid of w = min(4, services) columns, 272 and 86 apart |
| Layout.Layout | apps/web/components/ServiceGraph.tsx:187-254 | every service is placed once, boxes are disjoint, columns filled by name, all inside the box if and only if there is no cycle, the box then fits tightly; layers are longest paths and every edge goes strictly right |
| Layout.MutualCallsOverflow | apps/web/components/ServiceGraph.tsx:197-211 | the picture of two services that call each other has a box outside it |
| Retention.CutoffIsMonotonic | crates/runscape-storage/src/retention.rs:97-100 | a later pass never has an earlier cutoff and a longer age never expires more, saturation included; when a row is past it is Retention.ExpiredExactly |
| Retention.ExpiredExactly | crates/runscape-storage/src/retention.rs:97-100 | a row is expired if and only if its millisecond is earlier than that of now by more than the whole milliseconds of the age, wherever the arithmetic saturates; within 64 bits, in plain division |
| Retention.Store.DeleteEventsOlderThan | crates/runscape-storage/src/retention.rs:102-117 | the batch loop terminates and leaves exactly the rows at or after the cutoff, counts what it deleted, and every transaction is one specified batch |
| Retention.Store.TrimEvents | crates/runscape-storage/src/retention.rs:120-145 | the batch loop leaves exactly the newest rows by time and id, one specified batch after the other |
| Retention.Store.TrimSamplesPerService | crates/runscape-storage/src/retention.rs:149-186 | each service keeps up to its cap of its own newest samples, one specified transaction after the other |
| Retention.Store.Run | crates/runscape-storage/src/retention.rs:63-93 | of the rows held a pass leaves exactly those that have not outlived the age of the policy, within the caps; beyond a cap its size of them, the latest by time and id, samples service by service; it reports rows before minus rows after, settles, and deletes nothing when already settled; all it does is a chain of specified transactions |
| Retention.PassByAge | crates/runscape-storage/src/retention.rs:63-93 | the same of anything that leaves what a pass leaves, by the times of the rows alone |
| Retention.InterruptedPassFinishes | crates/runscape-storage/src/retention.rs:11-14 | over every life of the store, with passes run or cut short after any transaction, at times that do not go back, and rows recorded in between, a pass that finishes leaves of everything ever recorded exactly the newest unexpired events, and per service the newest unexpired samples |
| Retention.NextSpares | crates/runscape-storage/src/retention.rs:102-186 | whatever a transaction deletes is expired, or outranked by as many rows left (of its own service) as the cap allows; recording and time passing keep this |
| Retention.CutShortPassIsLife | crates/runscape-storage/src/retention.rs:63-93 | any front of the transactions of a pass, over both tables, is part of such a life |
| Retention.ServicesAreIndependent | crates/runscape-storage/src/retention.rs:147-153 | a service's samples are trimmed as if it were alone, and kept whole within its cap |
| Retention.TransactionIsSmall | crates/runscape-storage/src/retention.rs:102-186 | a transaction removes rows of one table only, at most 512 of them |
| Projects.ErrorsMeanNoRoot | crates/runscape-core/src/project.rs:361-409 | resolution fails if and only if no directory in reach may be a project and holds a marker |
| Projects.ErrorsExactly | crates/runscape-core/src/project.rs:361-409 | which failure it is: the nearest forbidden directory in reach is named if there is one, else the directory itself |
| Projects.ExcludedIsForbidden | crates/runscape-core/src/project.rs:248-258 | a directory is excluded if and only if it is listed or any component of it has a listed name |
| Projects.ResolvesToChosen | crates/runscape-core/src/project.rs:361-428 | resolution finds exactly the nearest repository, else outermost workspace, nearest package, nearest compose file |
| Projects.MatchExactly | crates/runscape-core/src/project.rs:430-486 | everything a match says: an allowed ancestor with the markers found there, one piece of evidence for each marker by its kind, the way down to the directory, and a confidence of 95 or 90 for a repository with or without other markers, 85, 75 or 70 for the others |
| Projects.ResolutionIsStable | crates/runscape-core/src/project.rs:361-428 | every directory up to the root resolves alike if and only if no ancestor that is in reach of the root but not of the directory outranks it (a repository or workspace, above a compose file also a package); never the case for repositories and for paths within the search |
| Projects.SameRootSameProject | crates/runscape-core/src/project.rs:430-486 | two directories with one root get one kind, confidence, marker list and root evidence, at any depth |
| Projects.DeepPathsCanWander | crates/runscape-core/src/project.rs:361-364 | a path as deep as the search whose answer changes on the way up |
| Resolver.ProjectResolver.CacheGet | crates/runscape-core/src/project.rs:334-342 | a hit is exactly an entry of the last 5 s, a stale one is dropped |
| Resolver.ProjectResolver.CachePut | crates/runscape-core/src/project.rs:344-359 | with fewer than 512 entries the new one is added; with 512 those of the last 5 s stay if they are fewer, else none |
| Resolver.ProjectResolver.Resolve | crates/runscape-core/src/project.rs:315-332 | the answer is what resolution said at some moment of the last 5 s, hence what it says now if no marker moved |
| Grouping.Group | crates/runscape-core/src/grouping.rs:123-159 | the two passes and the sorts yield the specified outcome, for every batch |
| Grouping.OutcomeIsGrouped | crates/runscape-core/src/grouping.rs:123-239 | with distinct PIDs the outcome has each input's own membership or the one of a directly grouped parent, the others ungrouped, and each project as the first input that names it describes it |
| Grouping.EveryInputIsPlaced | crates/runscape-core/src/grouping.rs:123-159 | every input is in exactly one of memberships and ungrouped, and every membership names a known project |
| Grouping.PlacedExactly | crates/runscape-core/src/grouping.rs:123-239 | where each input goes, with which confidence and why: its label for 90, else its resolved root for the confidence of the match, else the project its parent shows itself for 60, else nowhere |
| Grouping.KnownExactly | crates/runscape-core/src/grouping.rs:161-239 | a project is known if and only if some input shows it, as the first that shows it describes it |
| Grouping.GroupIgnoresOrder | crates/runscape-core/src/grouping.rs:121-159 | for any answers of the resolver, every permutation of the batch gives the identical outcome if and only if any two memberships that inputs with one PID can have are the same, and inputs that name one project agree on its kind, confidence and evidence |
| Grouping.OneMembershipEach | crates/runscape-core/src/grouping.rs:121-159 | with distinct PIDs there is at most one membership each input can get |
| Grouping.SharedPidShowsOrder | crates/runscape-core/src/grouping.rs:127-158 | of two directly grouped inputs with one PID and different memberships the first is listed first, because the sort is stable, so order shows |
| Grouping.SharedHeirShowsOrder | crates/runscape-core/src/grouping.rs:137-158 | so it does for two inputs with one PID that inherit from different parents |
| Grouping.ResolutionIsConsistent | crates/runscape-core/src/grouping.rs:222-235 | answers given, cached or not, while no marker moved agree on every root, at any depth and however a directory is spelled |
| Grouping.QuietTreeHidesOrder | crates/runscape-core/src/grouping.rs:121-159 | with distinct PIDs and answers from a time in which no marker moved, the order of the batch is hidden |
| Grouping.NewRepositoryShowsOrder | crates/runscape-core/src/grouping.rs:222-225 | with distinct PIDs and answers at most five seconds old, a repository created in a package makes the order of a batch show |

## Left out

- Collectors for the operating system, Docker and file watching, SQLite, HTTP, the command line, serialisation and rendering: I/O and library calls. The changed files of a tick are those the watcher drained, its cap of 20 included. Tables are row sets, the broadcast channel is a queue, the filesystem a map from directories to markers, the clock and the fired warnings are parameters.
- Identifier derivation by SHA-256: identifiers are taken as distinct. The fingerprint string of a service, process details and floating-point measurements are opaque values or dropped; confidence is in hundredths.
- Aliasing inside the registry: `Merged` and `Entered` are values that the registry reassigns, not objects updated through references.
- Iteration order of edges within a delta: the model uses the order of (source, target, port) where the original uses the order of the hashed edge id.
- `ws.rs` as one loop: `serve` is modelled by the steps of the state machine in `Sync`, one client at a time; clients do not influence one another or the server's view.
- The rules that decide which warnings fire, and the event window they read: easy, or only a filter when the event ring is sorted by time.
- Parser inputs outside the printed form: the parser also accepts day 31 in every month, second 60 and signed numbers; no claim is made about them, nor about overflow for years beyond 64-bit seconds.
- User overrides in grouping: none are configured by the daemon, and an override root equal to a discovered root would make the stored project depend on input order.
- TopologyFacts.TopologyIgnoresOrder: a PID or a listening address claimed by two services is left out, because there order shows (TopologyFacts.SharedPidShowsOrder, TopologyFacts.SharedListenerShowsOrder).
- Projects across batches (`remember_projects`, `crates/runscape-server/src/snapshot.rs:455-477`): keeps the first description of a project it has; easy.
- Which of several samples with equal times is deleted: the statement's order does not decide it, so neither does the model.
- Resource rings, attribution rankings, correlation, redaction, origin policy and the other view queries: easy members.
