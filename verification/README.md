# WingStation: a verified model of its live dashboard

WingStation shows the containers of a Docker host and keeps every open browser up to date. This
project models that path from end to end and proves what it promises:

- the TTL cache and the cache-aside `List` call, step by step, with invalidations, sweeps, other
  callers and the Docker event watcher in between (`Caching.dfy`, `Containers.dfy`, `ServiceRuns.dfy`);
- the queries over the shared cached slice: grouping, searching, sorting in place, and the partial
  page that picks between them (`Grouping.dfy`, `Ordering.dfy`, `Containers.dfy`, `Handlers.dfy`);
- the SSE broker, its bounded channels and its shutdown, and the text frames it writes, against the
  event stream parser of the WHATWG HTML Living Standard, sections 9.2.5 and 9.2.6
  (`EventStream.dfy`, `CarriageReturns.dfy`, `Broker.dfy`, `BrokerRuns.dfy`);
- the watcher that joins the two, and the composition of all of it (`Watcher.dfy`, `Pipeline.dfy`);
- the string-keyed data underneath: ports, labels, image names, byte counts (`Models.dfy`,
  `Labels.dfy`, `RepoUrl.dfy`, `Bytes.dfy`, with Go's string operations in `Text.dfy`);
- the page's reconnecting event source and its debounced search box (`Reconnect.dfy`, `Debounce.dfy`).

Code that updates state is modelled as classes and methods with loops, proved against functions on
values. Concurrent code is modelled as state machines (`BrokerRuns`, `ServiceRuns`, `Pipeline`): a
`Step` datatype, `Enabled` and `Apply`, and theorems over `After` any feasible sequence of steps.
The machines use the same functions as the classes (`Offered`, `Frame`, `Lookup`, `WithEntry`,
`Swept`, `Visible`, `IsGrouping`), so a change to one of them shows in both.

`dafny verify dfyconfig.toml` checks everything.

## What the proofs say about the code

Some properties one would expect do not hold. Each has a lemma with the exact condition or the
failing family of inputs.

- A browser decodes exactly the messages it was sent if and only if each has a nonempty name without
  CR or LF and data without CR (`EventStream.ResponseRoundTrip`). Data with CRs arrives as if they
  were not there if and only if each is directly followed by LF or by nothing but CRs
  (`CarriageReturns.ResponseCleanedIff` for whole responses); any other CR cuts its line or its event in two.
- After a Docker event a list read before it can still be broadcast. In any reachable state this is
  excluded for every continuation if and only if no `List` call has the daemon's answer in hand when
  the event is handled, or the time to live is negative (`ServiceRuns.ShownFreshIff`); what `List`
  itself returns obeys the same condition without the time to live (`ServiceRuns.ServedFreshIff`).
- `Stop` ends a reader if and only if its client was registered when `Stop` took the lock
  (`BrokerRuns.EndedIffRegisteredAtStop`); one that subscribes later is never ended by the broker
  (`BrokerRuns.LateChannelStaysOpen`). A second `Stop` always panics, which nothing else does
  (`BrokerRuns.PanicIffStoppedTwice`).
- The group filter of the partial page compares exactly, the search folds case: the two show the same
  containers if and only if every group name in the list that folds to the filter is spelled like it
  (`Grouping.ExactFilterAgreesIff`).
- `ListGrouped` is deterministic if and only if no two different containers of the list share group
  name, priority and name (`Grouping.UniqueIffNoTies`).
- `InferRepoURL` takes exactly the tag and the digest off a reference if and only if it is tagged or
  its name has no colon, and the name does not start with `sha256:` (`RepoUrl.CutsTagAndDigestIff`).
  So an untagged `host:port/path` is reduced to its host (`RepoUrl.UntaggedRegistryPortIsLost`). What
  is shown depends on that only for hosts without a dot, like `localhost`, which are then linked as
  official images; a dotted host has no link with or without a tag (`RepoUrl.TagKeepsLinkIff`). And
  the colon is cut before `sha256:` is stripped, so the digest guard never sees a bare `sha256:<hex>`
  image, which is linked to `hub.docker.com/_/sha256` (`RepoUrl.BareDigestIsLinked`).
- The formatted port key identifies two different ports if and only if one is nested in the other
  (`Models.SameKeyIff`). That takes a slash both in an address and in a type, so with real addresses,
  which have none, the key is injective whatever the types (`Models.PortKeyInjective`).
- The comment in `labels.go` says official images link to GitHub's docker-library; the code links
  them to Docker Hub. The model follows the code.

## Model

| member | source | states |
|---|---|---|
| `Pipeline.BrowserShowsDaemon` | internal/server/sse.go:167-197 | in every interleaving of List calls, watcher, broker and readers, if the CRs in what the client received are harmless, each event its browser decodes is the rendering of a grouping of the visible containers of one single daemon snapshot, or the update of a handled Docker event that names a container; each wake-up of the watcher shows at most one page and then at most one update, in the order of the wake-ups |
| `Pipeline.BrowserSeesEvent` | internal/server/sse.go:167-197 | if no List call has the daemon's answer in hand when a Docker event is handled (or the time to live is negative), every page decoded from a broadcast begun after it shows a snapshot read after it; for a client that subscribes later, that is every page it decodes; requires harmless CRs in what this client received |
| `Pipeline.UpdateDelivered` | internal/server/sse.go:167-180 | no event is skipped: the update of every handled event that names a container is broadcast or still pending; a client subscribed at that time (one still reading that came earlier, before Stop) and with a free slot has it, and its browser, once the buffer is drained, has decoded an event named container-update with that id and action (with harmless CRs) |
| `Pipeline.PendingCanGo` | internal/server/sse.go:176-179 | a pending update waits only for the watcher's own list and the lock |
| `Pipeline.PageCanGo` | internal/server/sse.go:189-196 | the page of a list the watcher holds goes out when it renders and the lock is free; when it does not render the watcher goes on |
| `Pipeline.WakeMakesPending` | internal/server/sse.go:167-179 | handling an event makes its update pending exactly when it names a container |
| `Pipeline.DecodedFromLog` | internal/server/sse.go:62-119 | a client's browser decodes exactly the messages received, merely without their CRs, if and only if the CRs in those messages are harmless; they sit at increasing positions of the log, none before the subscription |
| `Pipeline.FreshAfterEvent` | internal/server/sse.go:167-197 | after such an event every list broadcast in any continuation was read after it |
| `Pipeline.ServiceProjection` | internal/service/container.go:29-49 | a run of the whole is a run of the service: its theorems carry over |
| `Pipeline.BrokerProjection` | internal/server/sse.go:36-119 | a run of the whole is a run of the broker: its theorems carry over |
| `Pipeline.RunLinked` | internal/server/sse.go:167-197 | every logged message is a page for the grouping of a list served after the watcher woke up, or the payload of the event it woke up for; pages and updates follow the order of the wake-ups |
| `BrokerRuns.EndToEnd` | internal/server/sse.go:47-119 | over every interleaving, decoding the bytes written gives exactly the messages received, an in-order part of those broadcast while subscribed, if and only if each is wire-safe; then also the reconnection time |
| `BrokerRuns.EndToEndCleaned` | internal/server/sse.go:47-119 | over every interleaving, the browser gets the messages received, merely without their CRs, if and only if each has a proper name and only harmless CRs; other messages and clients do not matter |
| `BrokerRuns.Conservation` | internal/server/sse.go:47-85 | in every reachable state the messages broadcast during a subscription are an interleaving of received, then buffered, with dropped ones; at most 16 are buffered, drops happen only at exactly 16, and without a full buffer nothing is lost |
| `BrokerRuns.ReaderIsRegistered` | internal/server/sse.go:47-60 | until Stop takes the lock a client is registered exactly while it is between Subscribe and Unsubscribe |
| `BrokerRuns.SubscribedIsOffered` | internal/server/sse.go:47-85 | on the steps of a run: each broadcast begun after a client subscribes, and before it leaves and before Stop takes the lock, is offered to it by the time it finishes, and received or buffered if a slot is free then |
| `BrokerRuns.BroadcastFinishes` | internal/server/sse.go:76-84 | a broadcast needs no reader to finish: its own sends lead to a free lock from every reachable state |
| `BrokerRuns.StopFinishes` | internal/server/sse.go:38-43 | nor does Stop, once it has the lock |
| `BrokerRuns.CancelUnsubscribes` | internal/server/sse.go:103-117 | a reader whose request ends is unregistered by its own steps once the lock is free, and nobody else is |
| `BrokerRuns.ClientCanJoin` | internal/server/sse.go:99-104 | whenever the lock is free a new client can connect and subscribe, also after Stop: it is registered, with the preamble written |
| `BrokerRuns.StopCanRun` | internal/server/sse.go:36-39 | Stop can be called at any time and takes a free lock |
| `BrokerRuns.GoneIsFinal` | internal/server/sse.go:56-60 | a client that has left is offered and written nothing more in any continuation |
| `BrokerRuns.Delivered` | internal/server/sse.go:78-84 | each message broadcast during a client's subscription was offered to it, and if a slot was free then, the client has received it or has it buffered |
| `BrokerRuns.SafeLogDecodes` | internal/server/sse.go:64-119 | if all broadcast messages are wire-safe, every client decodes exactly what it received |
| `BrokerRuns.PanicIffStoppedTwice` | internal/server/sse.go:36-44 | no run panics (send on a closed channel, double close) except by calling Stop a second time, and then it does |
| `BrokerRuns.RegisteredIsOpen` | internal/server/sse.go:36-60 | a registered channel is open in every reachable state, except while Stop is closing them under the lock |
| `BrokerRuns.StepPanics` | internal/server/sse.go:36-85 | under the invariant exactly a second Stop panics |
| `BrokerRuns.StepInv` | internal/server/sse.go:36-119 | every step keeps conservation and channel safety of every client |
| `BrokerRuns.StoppedClientsDrain` | internal/server/sse.go:36-44 | every reader registered at Stop can receive its whole buffer and then ends |
| `BrokerRuns.DrainEnds` | internal/server/sse.go:106-118 | a reader of a closed channel gets all kept messages written and leaves its loop |
| `BrokerRuns.ClosedIsFinal` | internal/server/sse.go:36-85 | a closed channel stays closed and is offered nothing more in any continuation |
| `BrokerRuns.LateChannelStaysOpen` | internal/server/sse.go:36-53 | after Stop a channel it did not close stays open for ever, so its reader never sees the end |
| `BrokerRuns.EndedIffRegisteredAtStop` | internal/server/sse.go:36-60 | once Stop has finished, the broker can end a reader if and only if its client was registered when Stop took the lock |
| `BrokerRuns.OffersInterleave` | internal/server/sse.go:78-84 | the send attempts are an interleaving of kept and dropped messages |
| `BrokerRuns.NothingDropped` | internal/server/sse.go:78-84 | with a free slot at each attempt everything is kept, in order |
| `EventStream.FormatFrame` | internal/server/sse.go:64-75 | the loop over the lines builds the frame that the parser lemmas are about |
| `EventStream.ResponseRoundTrip` | internal/server/sse.go:64-119 | a browser decodes a response to exactly the messages written, in order, if and only if all are wire-safe; then also the reconnection time |
| `EventStream.FrameRoundTrip` | internal/server/sse.go:64-75 | one frame decodes to exactly its name and data if and only if it is wire-safe, empty data, leading spaces and trailing newlines included |
| `EventStream.RunFrames` | internal/server/sse.go:64-75 | frames one after the other decode to their events in order, leaving nothing pending |
| `EventStream.RunPreamble` | internal/server/sse.go:99-101 | the retry line dispatches no event and sets the reconnection time exactly for a non-negative number |
| `EventStream.TextOfSplit` | internal/server/sse.go:69-73 | the lines the data is split into carry the whole data and one more line end |
| `CarriageReturns.CarriageReturnsDroppedIff` | internal/server/sse.go:64-75 | a frame decodes to its data without the CRs if and only if every CR is directly followed by LF, or by nothing but CRs |
| `CarriageReturns.ResponseCleanedIff` | internal/server/sse.go:64-119 | a response decodes to its messages without their CRs, one event each and in order, if and only if every name is nonempty and without line ends and every CR in the data is directly followed by LF, or by nothing but CRs |
| `CarriageReturns.FrameGain` | internal/server/sse.go:64-75 | any frame yields at least one event and no more text than its data has without CRs; one event and all of the text only for such data |
| `CarriageReturns.AllDataLines` | internal/server/sse.go:69-73 | data lines never yield more text than they carry, and lose none only if every line has its CRs at the end and only the last has several |
| `CarriageReturns.EndLoss` | internal/server/sse.go:69-73 | what follows a CR inside a line is lost to the browser, at least in part |
| `CarriageReturns.SplitStripped` | internal/server/sse.go:69 | splitting into lines and dropping CRs commute |
| `EventStream.DecodedEventsAreSafe` | internal/server/sse.go:64-75 | nothing a browser decodes from any stream has a CR in its data or a line end in its name |
| `EventStream.CutResponse` | internal/server/sse.go:106-118 | a connection cut at any byte has delivered a prefix of the events, none partial |
| `Broker.SSEBroker.constructor` | internal/server/sse.go:25-30 | a new broker has no clients and is not stopped |
| `Broker.SSEBroker.Subscribe` | internal/server/sse.go:47-53 | a fresh, open, empty channel is registered beside the old ones |
| `Broker.SSEBroker.Unsubscribe` | internal/server/sse.go:56-60 | exactly that channel is removed |
| `Broker.SSEBroker.Broadcast` | internal/server/sse.go:64-85 | whatever the map order, every client is offered the frame once and keeps its buffer if full |
| `Broker.SSEBroker.Stop` | internal/server/sse.go:36-44 | every registered channel is closed once with its buffer intact, and none stays registered |
| `Broker.Offered` | internal/server/sse.go:79-83 | a non-blocking send never makes a buffer exceed its 16 slots |
| `Broker.Channel.TrySend` | internal/server/sse.go:79-83 | the message is appended, or dropped when all slots are taken |
| `Broker.Channel.Receive` | internal/server/sse.go:108-114 | the oldest message, or the end of a closed and drained channel |
| `Watcher.PayloadReadsBack` | internal/server/sse.go:178 | splitting the payload at its quotes gives the id under id and the action under action, when neither has a quote |
| `Watcher.Server.BroadcastContainerList` | internal/server/sse.go:182-197 | every client is offered the page for a grouping of the list served, or nothing when listing or rendering fails |
| `Watcher.Server.HandleDockerEvent` | internal/server/sse.go:167-180 | without a concurrent List every client is offered the page for the daemon's present containers, then the targeted update when the event names a container |
| `ServiceRuns.StaleOnlyByOverlap` | internal/service/container.go:29-49 | a list served after an invalidation but read before it comes from a List call whose Get missed before the invalidation and whose Set came after it |
| `ServiceRuns.ProvenanceAndAge` | internal/service/container.go:29-49 | every list served is the in-order visible image of the daemon at one step, at most the time to live plus its own fetch time old |
| `ServiceRuns.BroadcastsAreFresh` | internal/server/sse.go:167-197 | over whole runs: if no List call has read the daemon and not yet stored its answer at a Docker event, everything broadcast after it was read and stored after it |
| `ServiceRuns.ShownFreshIff` | internal/server/sse.go:167-197 | in any reachable state: everything broadcast after a Docker event, in every continuation, was read after it, if and only if no List call has the daemon's answer in hand when the event is handled, or the time to live is negative |
| `ServiceRuns.ServedFreshIff` | internal/service/container.go:29-49 | the same of everything any List call returns, where the time to live does not matter |
| `ServiceRuns.OverlapServesStale` | internal/service/container.go:29-49 | in any reachable state, a List call that has the daemon's answer in hand when an event is handled can return it next, stale |
| `ServiceRuns.OverlapShowsStale` | internal/server/sse.go:167-197 | and unless the time to live is negative the watcher can broadcast it as its answer to the event |
| `ServiceRuns.OverlapIsReachable` | internal/service/container.go:29-49 | for any two daemon states such a state is reached, with the first in hand and the second current |
| `ServiceRuns.MissServesDaemon` | internal/service/container.go:29-49 | an undisturbed List call that misses returns the daemon's visible containers and caches them for the time to live |
| `ServiceRuns.HitServesCache` | internal/service/container.go:30-32 | one that hits returns the cached list and changes nothing |
| `ServiceRuns.TickerShowsCache` | internal/server/sse.go:155-156 | a tick makes an idle watcher show the cached list |
| `ServiceRuns.TickerShowsDaemon` | internal/server/sse.go:155-156 | or, when none is cached, the daemon's visible containers |
| `ServiceRuns.EventShowsDaemon` | internal/server/sse.go:167-174 | an event makes an idle watcher show the daemon's visible containers, whatever is cached |
| `ServiceRuns.SweepIsHarmless` | internal/cache/cache.go:83-90 | a sweep between the steps of List calls leaves nothing expired and changes no later answer |
| `ServiceRuns.OtherKeys` | internal/cache/cache.go:45-61 | other users of the cache, and the invalidation of one key, touch only that key |
| `ServiceRuns.FailureShowsNothing` | internal/server/sse.go:182-187 | a daemon that fails leaves the watcher idle again, with nothing cached, served or shown |
| `ServiceRuns.StepInv` | internal/service/container.go:29-49 | every step keeps provenance, unbroken storage and age of all that is cached or served |
| `ServiceRuns.SettledStep` | internal/service/container.go:29-49 | once nothing old is cached or in hand, no step brings it back |
| `ServiceRuns.WatcherStep` | internal/server/sse.go:167-197 | nor does any step let the watcher show anything old, with a negative time to live not even when another call has it in hand |
| `ServiceRuns.EventSettles` | internal/server/sse.go:171-174 | handling an event leaves nothing old but what List calls have in hand |
| `ServiceRuns.HitServed` | internal/cache/cache.go:33-42 | a hit serves a list stored since the last invalidation, no older than the time to live |
| `Caching.GetAnswers` | internal/cache/cache.go:33-69 | with a clock that never goes back every Get of every run answers the same with and without sweeps: the last Set since the last invalidation of its key, if at most the time to live old |
| `Caching.SweptAndUnswept` | internal/cache/cache.go:76-95 | sweeps remove only entries already expired |
| `Caching.SweepLeavesFresh` | internal/cache/cache.go:83-90 | after a sweep each entry left is unexpired at the sweep's time |
| `Caching.UnsweptHoldsLastSet` | internal/cache/cache.go:45-69 | without sweeps a key holds exactly its last Set since its last invalidation |
| `Caching.Cache.constructor` | internal/cache/cache.go:22-30 | an empty cache with the given time to live |
| `Caching.Cache.Get` | internal/cache/cache.go:33-42 | the stored value unless missing or expired; the boundary instant still hits |
| `Caching.Cache.Set` | internal/cache/cache.go:45-53 | the key holds the value until now plus the time to live, other keys are untouched |
| `Caching.Cache.Invalidate` | internal/cache/cache.go:56-61 | exactly that key is gone |
| `Caching.Cache.InvalidateAll` | internal/cache/cache.go:64-69 | nothing is left |
| `Caching.Cache.Sweep` | internal/cache/cache.go:83-90 | whatever the map order, exactly the expired entries go, and no later Get answers differently |
| `Containers.ContainerService.List` | internal/service/container.go:29-49 | serves the unexpired cached list or the visible image of the daemon's answer, stores the latter, keeps the cache on failure; a hit shares the cached slice, a miss a fresh one |
| `Containers.RepeatedList` | internal/service/container.go:29-49 | while what one List call served has not expired the next serves it again, whatever the daemon says; afterwards it asks the daemon |
| `Containers.ContainerService.Fetch` | internal/service/container.go:39-48 | the miss path stores a fresh slice with the visible containers |
| `Containers.Convert` | internal/service/container.go:39-45 | the loop yields the images of the snapshot's containers that are not hidden, in order |
| `Containers.VisibleIs` | internal/service/container.go:39-45 | the list holds the images of exactly the containers whose wingstation.hide label is missing or none of true, 1 and yes, each as often as the daemon reports it, in its order |
| `Containers.ListedIsNotHidden` | internal/service/container.go:42-44 | every listed container's own labels do not hide it |
| `Containers.ContainerService.ListGrouped` | internal/service/container.go:52-98 | returns a grouping of the list served and leaves the cached slice exactly as List left it |
| `Containers.GroupAndSort` | internal/service/container.go:58-97 | the loops and sorts after the List call yield a grouping and change no slice but their own |
| `Containers.GroupByName` | internal/service/container.go:58-75 | the loop over mutable groups collects each name's containers in list order, with the first icon and the least priority |
| `Containers.GroupCell.Add` | internal/service/container.go:70-74 | one container more, and the smaller priority |
| `Containers.SortedGroups` | internal/service/container.go:77-87 | whatever the map order, every group is visited once and sorted |
| `Containers.SortGroups` | internal/service/container.go:90-95 | sorting the groups completes the grouping |
| `Containers.ContainerService.Search` | internal/service/container.go:110-126 | returns a sorted permutation of exactly the matching containers of the list served and leaves the cached slice exactly as List left it |
| `Containers.FilterList` | internal/service/container.go:116-122 | the loop keeps exactly the matching containers, in order |
| `Containers.MatchesSearch` | internal/service/container.go:150-169 | the early returns amount to the conjunction of the filters that are set |
| `Containers.SortContainers` | internal/service/container.go:171-193 | a permutation sorted by the chosen order, by priority and name for any unknown choice |
| `Containers.ContainerService.InvalidateCache` | internal/service/container.go:146-148 | nothing is cached afterwards |
| `Grouping.Canonical` | internal/service/container.go:58-95 | whatever the map order and the unstable sorts, two results have the same names, priorities and members in the same order, and the same icons for the same list; groups without ties are identical; permuting the list changes nothing but icons and ties |
| `Grouping.UniqueIffNoTies` | internal/service/container.go:58-95 | the result is fully determined if and only if no two different containers of the list share group name, priority and name |
| `Grouping.Partition` | internal/service/container.go:58-95 | flattening gives back the list; names are distinct, no group is empty, members carry the group's name, its priority is their least and that of its first member |
| `Grouping.SelectedGroups` | internal/service/container.go:58-87 | groups selected by name show exactly the containers of those names, each as often as listed |
| `Grouping.OrdersAreWeak` | internal/service/container.go:80-94 | every comparison given to sort.Slice is a strict weak order |
| `Grouping.StrongerSearchShowsLess` | internal/service/container.go:150-169 | setting more filters, in any sort mode, only removes containers |
| `Grouping.GroupOrder` | internal/service/container.go:90-95 | groups come by ascending priority, and at equal priority by the order of characters of their names |
| `Grouping.MemberOrder` | internal/service/container.go:80-85 | so do the containers of a group, where names may be equal |
| `Grouping.FirstIcon` | internal/service/container.go:62-68 | a group has the icon of the first container of its name in the list |
| `Grouping.SearchOrder` | internal/service/container.go:171-193 | results come by name, by state, newest first, or by priority and name for any other choice |
| `Grouping.StatusFinds` | internal/service/container.go:151-153 | a status alone finds the containers whose state is that up to case, each as often as listed |
| `Grouping.GroupFinds` | internal/service/container.go:154-156 | a group alone those whose group name is that up to case |
| `Grouping.TagFinds` | internal/service/container.go:157-159 | a tag alone those one of whose tags is that up to case |
| `Grouping.QueryFinds` | internal/service/container.go:160-167 | a query alone those in whose lowered display name or image, or in whose short id, it occurs lowered |
| `Grouping.SearchIsIntersection` | internal/service/container.go:150-169 | several filters find the intersection of what each finds alone |
| `Grouping.NoFilterFindsAll` | internal/service/container.go:150-169 | no filter finds everything |
| `Grouping.SearchCount` | internal/service/container.go:110-126 | each matching container is returned as often as it is listed, no other at all |
| `Grouping.SearchIsUnionOfGroups` | internal/service/container.go:110-169 | searching by group alone returns the union of the groups whose names fold to it |
| `Grouping.SearchIsTheGroup` | internal/service/container.go:52-126 | with one such group and no ties it returns that group's very sequence |
| `Grouping.SearchIsTheGroupIff` | internal/service/container.go:52-126 | when one group name of the list alone folds to the parameter, the search is certain to return that group's very sequence, whatever the unstable sorts do, if and only if no two different containers of that name share priority and name |
| `Grouping.ExactFilterAgreesIff` | internal/server/handlers.go:88-98 | the exact filter shows what the search shows if and only if every group name in the list that folds to the filter is spelled like it |
| `Ordering.SortSlice` | internal/service/container.go:80-95 | an in-place sort that promises a sorted permutation and nothing about ties |
| `Ordering.SortedUnique` | internal/service/container.go:80-85 | two sorted permutations are equal when only equal elements tie |
| `Ordering.StrictlySortedUnique` | internal/service/container.go:90-95 | a strictly sorted sequence is determined by its elements |
| `Ordering.FilterMonotone` | internal/service/container.go:116-122 | a stronger test only removes elements |
| `Handlers.HandlePartialContainers` | internal/server/handlers.go:54-101 | a query, status or tag asks for one flat group of search results; otherwise the groups, filtered by exact name; each failure has its own message |
| `Handlers.FlatPage` | internal/server/handlers.go:64-79 | a query, a status or a tag gives one group named Search Results with the search result |
| `Handlers.GroupedPage` | internal/server/handlers.go:81-100 | without them the groups are shown, all or those of exactly the group's name |
| `Handlers.FailedPage` | internal/server/handlers.go:66-86 | each way of failing has its own text |
| `Handlers.KeepNamed` | internal/server/handlers.go:90-95 | the loop keeps exactly the groups of that name |
| `Handlers.GroupPageAgreesWithSearchIff` | internal/server/handlers.go:88-98 | with a group filter alone, page and search show the same containers if and only if every group name in the list that folds to it is spelled like it |
| `Handlers.GroupPageIsTheSearch` | internal/server/handlers.go:88-98 | for one such group without ties the page is just that group, and the search finds its containers in the same order |
| `Handlers.ServeAll` | internal/server/handlers.go:54-101 | any sequence of requests over the shared slice is answered as if the cached list were an immutable value |
| `Models.ContainerFromAPI` | internal/docker/models.go:163-207 | the whole conversion: name without its slash, short id, uptime only while running, parsed labels, deduplicated ports |
| `Models.ShowPorts` | internal/docker/models.go:175-192 | the loop keeps each published port whose key was not seen before |
| `Models.ShownPorts` | internal/docker/models.go:175-192 | the mappings shown are pairwise distinct; they are exactly the images of the published ports if and only if no published port is nested in another |
| `Models.KeyDedupIsValueDedup` | internal/docker/models.go:175-192 | deduplicating by the formatted key is deduplicating by value, in first-occurrence order, if and only if no published port is nested in another |
| `Models.SlashFreeNotNested` | internal/docker/models.go:175-184 | without slashes in the addresses, or without slashes in the types, none is |
| `Models.SameKeyIff` | internal/docker/models.go:181 | two ports have one key if and only if they are the same or one is nested in the other: its address and the other's type contain each other's keys |
| `Models.PortKeyInjective` | internal/docker/models.go:181 | equal keys mean equal ports when both addresses are free of slashes, or both types are; colons in addresses are allowed |
| `Models.NestedExample` | internal/docker/models.go:181-184 | two different ports with one key, of which the second is dropped; their addresses and types are not ones a daemon reports |
| `Models.MappingReadsBack` | internal/docker/models.go:186-238 | both port numbers, the type and the address can be read back from where the mapping shows them |
| `Models.MappingInjective` | internal/docker/models.go:186-238 | different ports are shown differently |
| `Labels.ParseLabels` | internal/docker/labels.go:23-61 | whatever the map order, the result is the field-by-field lookup with its defaults |
| `Labels.ApplyEntry` | internal/docker/labels.go:28-58 | one entry moves the lookup from the entries before it to those with it |
| `Labels.FieldEntry` | internal/docker/labels.go:33-57 | an entry of the prefix sets its own field and no other |
| `Labels.OtherEntry` | internal/docker/labels.go:29-31 | an entry without the prefix changes nothing |
| `Labels.AppendTags` | internal/docker/labels.go:51-56 | the loop appends the trimmed nonempty pieces, in order |
| `Labels.PaddedTagsParse` | internal/docker/labels.go:51-56 | tags with any space around them and empty pieces between them are read as the same tags, in order |
| `Labels.CopiedFields` | internal/docker/labels.go:34-43 | group, name, icon, description and url are the values of their own labels, or empty |
| `Labels.ReadFields` | internal/docker/labels.go:24-56 | the priority is the number in its label, else 50; hide is set by true, 1 and yes; tags come from the tags label |
| `Labels.ShownNames` | internal/docker/labels.go:64-77 | the group is called Ungrouped without a group label, and the name label wins over the container's name |
| `Labels.TagsAreProper` | internal/docker/labels.go:51-56 | parsed tags are trimmed, nonempty and free of commas |
| `Labels.TagsRoundTrip` | internal/docker/labels.go:51-56 | tags joined with commas parse to themselves if and only if all are trimmed, nonempty and comma-free |
| `Labels.TagsIdempotent` | internal/docker/labels.go:51-56 | parsing, joining and parsing again changes nothing |
| `Text.AtoiForms` | internal/docker/labels.go:45 | a sign and a leading zero are read as strconv.Atoi does, and what does not fit in 64 bits is refused |
| `Text.TrimSpaceOf` | internal/docker/labels.go:52 | strings.TrimSpace takes the space off both ends of a text, and nothing else |
| `Text.EqualFoldIff` | internal/docker/labels.go:82 | strings fold to each other exactly when they agree letter by letter up to (ASCII) case |
| `Text.StrLessIff` | internal/service/container.go:84-94 | Go's string order puts the string first that ends, or has the smaller character, where they first differ |
| `Labels.PriorityRoundTrip` | internal/docker/labels.go:44-47 | any 64-bit priority printed into its label is parsed back |
| `Labels.WingStationLabels.HasTag` | internal/docker/labels.go:80-87 | true exactly when some tag equals the argument up to case |
| `RepoUrl.InferRepoURL` | internal/docker/labels.go:91-149 | the loop and the cuts compute the first nonempty source label, else the link for the bare image name |
| `RepoUrl.InferFromName` | internal/docker/labels.go:115-148 | the early returns amount to the ordered heuristics |
| `RepoUrl.TagAndDigestIgnored` | internal/docker/labels.go:104-111 | a tag, a digest or both never change the link of a name without colon or at sign |
| `RepoUrl.CutsTagAndDigestIff` | internal/docker/labels.go:104-113 | for a reference name[:tag][@digest] the cuts leave exactly the name if and only if it is tagged or the name has no colon, and the name does not start with sha256: |
| `RepoUrl.TaggedKeepsName` | internal/docker/labels.go:109-113 | on a tagged image, with or without a digest, the whole name survives, registry port included |
| `RepoUrl.GhcrLink` | internal/docker/labels.go:120-126 | ghcr.io/owner/repo with any further path, tag and digest links to owner/repo on GitHub |
| `RepoUrl.SourceLabelWins` | internal/docker/labels.go:93-101 | the first of the three source labels that is present and nonempty is the link, whatever the image |
| `RepoUrl.GhcrWithoutRepo` | internal/docker/labels.go:121-126 | ghcr.io with only an owner has no link |
| `RepoUrl.LinuxserverLink` | internal/docker/labels.go:128-133 | a linuxserver image links to its GitHub repository, with or without lscr.io, tag and digest |
| `RepoUrl.HubLink` | internal/docker/labels.go:115-148 | any other plain name is linked to Docker Hub whole, as official image or under its user, unless it has a dot or looks like a digest, and then not at all |
| `RepoUrl.UntaggedRegistryPortIsLost` | internal/docker/labels.go:109-148 | an untagged host:port/path gets no link when the host has a dot or 64 characters, and otherwise that of an official image with the host's name |
| `RepoUrl.TagKeepsLinkIff` | internal/docker/labels.go:104-148 | for an image host:port/path, with or without a digest, adding a tag leaves the link as it is if and only if the host has a dot (no link either way), or has 64 characters with a dot after it; the host sha256 is taken for a digest |
| `RepoUrl.RegistryPortLink` | internal/docker/labels.go:115-148 | what is linked of a tagged host:port/path is all of it, on Docker Hub, and nothing when there is a dot anywhere |
| `RepoUrl.BareDigestIsLinked` | internal/docker/labels.go:109-118 | a bare sha256 image is linked as an official image called sha256 |
| `Bytes.ErrorBound` | internal/server/server.go:225-245 | below 2^53 the amount shown is within a twentieth of its unit; beyond, half a float spacing more |
| `Bytes.ShownMonotone` | internal/server/server.go:225-245 | more bytes are never shown as less, across all units and values that round up to 1024.0 |
| `Bytes.AmountRange` | internal/server/server.go:233-241 | the number shown is at least 1.0, and at most 1024.0 below terabytes |
| `Bytes.RoundsUpToNextUnit` | internal/server/server.go:233-241 | 1024.0 is shown exactly within a twentieth below the next unit |
| `Bytes.SpacingOfInt64` | internal/server/server.go:225-235 | for 64-bit counts the float spacing is at most 1024 bytes |
| `Bytes.UnitPrinted` | internal/server/server.go:233-243 | TB is printed from 2^40 bytes on, GB from 2^30, MB from 2^20, KB from 1024, and B below, with the count itself |
| `Bytes.TiesToEven` | internal/server/server.go:235-241 | an amount exactly between two tenths is shown as the even one |
| `Bytes.ReadBack` | internal/server/server.go:225-245 | reading the text back gives exactly the amount shown, whole bytes and negative counts included |
| `Reconnect.OneSourceOrTimer` | web/static/js/app.js:65-109 | after any sequence of events there is exactly one of a live source and a pending timer, and no older source is open |
| `Reconnect.ErrorSchedules` | web/static/js/app.js:98-105 | an error schedules exactly one reconnect, after min(1000 * 2^k, 30000) ms for k errors since the last open |
| `Reconnect.TimerReconnects` | web/static/js/app.js:98-105 | without a live source the pending timer can run when it is due, and then a source is live again |
| `Reconnect.BackoffTakesTime` | web/static/js/app.js:98-105 | k errors since the last open took at least the sum of their delays |
| `Reconnect.DelaySteps` | web/static/js/app.js:102 | the delay doubles up to its maximum, which it has exactly from the fifth repetition on |
| `Reconnect.AttemptsAreErrors` | web/static/js/app.js:79-103 | the counter is the number of errors since the last open |
| `Reconnect.Connection.constructor` | web/static/js/app.js:65-109 | starts with one live source |
| `Reconnect.Connection.Connect` | web/static/js/app.js:70-75 | the current source is closed and a new one is live |
| `Reconnect.Connection.OnOpen` | web/static/js/app.js:77-80 | the counter is reset |
| `Reconnect.Connection.OnError` | web/static/js/app.js:98-105 | the source is closed, the counter grows, and a timer is set |
| `Reconnect.Connection.OnTimer` | web/static/js/app.js:104 | a timer that runs is gone and connects |
| `Debounce.CallsAreSettledInputs` | web/static/js/app.js:112-118 | over every run the function is called for exactly the inputs that no other followed before their timer ran, in order, with at most one timer pending |
| `Debounce.RunsAfterQuiet` | web/static/js/app.js:112-118 | a timer runs only directly after an input, at least the delay later |
| `Debounce.QuietInputRuns` | web/static/js/app.js:112-118 | an input left alone can be called for at any moment from the delay on |
| `Debounce.Debounced.Call` | web/static/js/app.js:114-117 | the last timer is cleared and one is set for this input |
| `Debounce.Debounced.OnTimer` | web/static/js/app.js:116 | the function is called with the timer's own argument, once |

## Left out

- HTTP routing, headers, templates, static files, `config.Load`, authentication, `terminal.go`, the Docker SDK client: input and output without an invariant of their own. Rendering is a parameter (`render`) that may fail; the daemon's answers are arbitrary.
- Inspect, host info and other cache users: only as foreign keys of the shared cache; `containerDetailFromInspect` and `HostInfoFromAPI` copy fields.
- `formatNanoCPU`, `formatUptime`, `percentage`, `maskValue`, `isSensitiveKey`: one branch or one float format each.
- Strings are sequences of code points, not of UTF-8 bytes; Go's byte order is the order of code points, and UTF-8 encoding and its errors are not modelled. A 64-character name without slash is counted in characters.
- Containers.MatchesSearch: letter case is folded over ASCII only; `strings.EqualFold` and `strings.ToLower` fold more.
- Labels.WingStationLabels.HasTag: letter case is folded over ASCII only, as above.
- Models.ContainerFromAPI: requires an id of at least 12 characters, which the daemon always gives and without which the code panics; the uptime uses one clock reading and does not saturate at the range of `time.Duration`.
- Containers.ContainerService.List: as a method it is one call without interference; the interleavings of its three steps are in `ServiceRuns`, where a list is a value and not a shared slice.
- Ordering.SortSlice: an insertion sort stands for Go's pattern-defeating quicksort; callers know only the contract of `sort.Slice`.
- BrokerRuns.EndToEnd: receiving a message and writing it is one step; a write that fails, or a client that is slow to read its connection, is not modelled.
- BrokerRuns.StoppedClientsDrain: says that the reader can drain and end, not that the scheduler lets it.
- The `container-update` payload is built without escaping, so it is valid JSON (section 7 of RFC 8259) only for ids and actions free of quotes, backslashes and control characters; its validity is not claimed.
- Pipeline.BrowserShowsDaemon: rendering and the start of its broadcast are one step. What a browser decodes when a client received harmful CRs is not described further than that it is not what was received.
- Liveness: nothing is claimed that depends on the Go scheduler, the network or the browser making progress.
- Reconnect.OneSourceOrTimer: assumes, as section 9.2 of the WHATWG HTML Living Standard provides, that a closed event source fires no more events; the browser's own reconnection never happens because every error closes the source.
- The restart of the Docker event stream after an error and the pause before it: the watcher is idle in between.
