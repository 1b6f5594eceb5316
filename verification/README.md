# Blued: a verified model

Blued is a service-discovery agent built on Serf. Each node keeps a router table
(service to addresses), a cache of the applications registered at it, and an IPC
server through which clients call the agent and subscribe to events and logs.
This project models those parts and proves what they promise, for every input,
every run and every interleaving of the steps named below.

| file | what it holds |
|---|---|
| `Digests.dfy`, `Routers.dfy` | checksums; the router table as a value and what each event does to it |
| `Convergence.dfy` | replicas that receive the same events in different orders |
| `Sync.dfy`, `Fingerprints.dfy` | copying a table to another node; the fingerprints given to applications |
| `MsdRepo.dfy`, `EventHandler.dfy` | the repository object with Go slices edited in place; the Serf event handler |
| `Cache.dfy`, `CacheRuns.dfy` | the expiring cache; transparency, conservation and leases over whole runs |
| `Cluster.dfy`, `Leases.dfy`, `Registry.dfy` | caches, event queues and tables of many nodes together; what is cached and until when; the object that joins one node's cache and table |
| `EventFilters.dfy`, `Tags.dfy`, `Strings.dfy` | filters and tags, printed and parsed |
| `Streams.dfy`, `StreamRuns.dfy`, `LogWriter.dfy` | bounded queues to clients; all event streams of an agent over whole runs; the log ring and its replay |
| `Handshake.dfy`, `Sessions.dfy` | session gate; the agent's book-keeping of subscriptions |
| `Wire.dfy`, `WireRuns.dfy` | both ends of one connection, token by token |
| `ClientDispatch.dfy` | the client's dispatch map and its tear-down: the steps, their runs and the objects |
| `Listings.dfy`, `Wrappers.dfy` | listings of a set in an arbitrary order; `Option` |

`dafny verify dfyconfig.toml` checks everything. Nothing here is executed.

## How the source is read

- Each repository operation, cache call, IPC request and event fan-out is one
  atomic step; so are lookup plus `Handle` in the client's reader, and a sweep
  plus the unregistrations it causes. No locking discipline is claimed:
  `UpdateRouters` writes under a read lock and `RemoveRouter` takes none.
- Clock readings are arguments. An operation that reads the clock twice takes two
  readings, and a sweep takes one per item.
- The hash is any function from strings to sixteen bytes.
- Map iteration visits the keys in an arbitrary order.
- Sequence numbers are unbounded; the source's are 64 bits wide.
- The client's MessagePack decoders are built with two options only
  (client/rpc_client.go:144-147), and `listen` decodes every header into one
  variable (client/rpc_client.go:846). What a decoder does with a record in the
  place of a header, whose keys are not a header's, is up to the codec library,
  which is not part of this model. Both answers are: a `Strict` decoder fails, a
  `Tolerant` one skips the record and keeps the number read before. Every theorem
  about the wire is for both. A response object in that place, and a record left
  with the number of a registered handler, count as errors for either.
- Where the code does not do what it seems meant to do, the code is kept and the
  exact condition is proved:
  - `Stop` drops a handler locally before it tells the agent, and takes any number.
    The client loses its place in the byte stream exactly when a body that needs
    the handler is on its way or is sent later (`WireRuns.StepKeepsSyncIff`). For
    the handle of an accepted subscription that never happens with a tolerant
    decoder, and with a strict one exactly when a record of the subscription is on
    its way or is sent later (`WireRuns.ProperStepIsOrderlyIff`, with a concrete
    run in `WireRuns.StoppingWithARecordOnItsWay`). Stopping the number of a
    pending call whose response has a body breaks the stream at the latest when the
    agent answers, whatever the decoder.
  - A full log ring whose oldest line is empty is taken for one that has not
    wrapped, and part of it is not replayed (`LogWriter.ReplayCompleteIff`,
    `LogWriter.EmptyLineIsNotReplayed`).
  - The two fingerprints of an application differ when none of its consumed
    services is routed (`Fingerprints.FingerprintsMatchIffRouted`).
  - When a node is told that a host failed, or receives an unregistration or a
    registration of the same address from another node, its table loses a live
    application until that registers again; refreshing is not enough
    (`Cluster.LostUntilRegisteredAgain`). A table that has received everything
    lists exactly what is cached and not lost (`Cluster.CaughtUpTablesListTheCaches`),
    so it matches the caches iff nothing that provides a service was lost
    (`Cluster.TableMatchesCachesIffNothingLost`, with a concrete run of two nodes in
    `Cluster.HostFailureHidesALiveApplication`).

## Model

| member | source | states |
|---|---|---|
| Digests.SumIsByteTotalMod256 | discoverd/msd/msd_repo.go:262-274 | the wrapping byte sums equal the true sums of the hashes modulo 256 |
| Digests.SumIgnoresOrder | discoverd/msd/msd_repo.go:262-274 | a checksum depends only on the multiset of addresses |
| Digests.SumConcat | discoverd/msd/msd_repo.go:262-274 | checksums of two lists add up to that of their concatenation |
| Routers.KeepMembers | discoverd/msd/msd_repo.go:151-158 | the list left by a removal has exactly the addresses that do not match |
| Routers.KeepKeepsOrder | discoverd/msd/msd_repo.go:151-158 | what a removal leaves keeps its order |
| Routers.RemoveDeletesRows | discoverd/msd/msd_repo.go:120-170 | a removal deletes from the relation (service, node, address) exactly the rows it names |
| Routers.AddInsertsRows | discoverd/msd/msd_repo.go:180-207 | adding inserts one row per named service, duplicates in the list included |
| Routers.RegistrationAppends | discoverd/msd/msd_repo.go:180-207 | the address is appended to the list of each named service, once, and every other router stays as it is |
| Routers.ApplyRows | discoverd/msd/msd_repo.go:120-208 | each event is a set operation on the relation: it adds its rows and kills the older ones it overrides |
| Routers.ClosedForm | discoverd/msd/msd_repo.go:120-208 | after any history a row is present iff its last registration was not followed by a removal, or it was there at the start and nothing removed it |
| Routers.RunKeepsInv | discoverd/msd/msd_repo.go:120-208 | events keep the table good: non-empty lists of distinct addresses, right names and checksums, and one node per address |
| Convergence.IndependentIffSwappable | discoverd/msd/msd_repo.go:120-208 | exactly which pairs of events can be delivered in either order, from every table |
| Convergence.AgreeIffSameRows | discoverd/msd/msd_repo.go:262-274 | reachable tables have the same services, address multisets and checksums iff they have the same rows |
| Convergence.AddedAndKeptAfterReorder | discoverd/msd/msd_repo.go:120-208 | a row that one order of the events leaves is left by every order that keeps dependent pairs in place |
| Convergence.ReplicasConverge | discoverd/msd/msd_repo.go:120-208 | replicas that agree and get the same events, with only swappable pairs reordered, agree afterwards |
| Convergence.ReplicasConvergeOnConflicts | command/agent/discoverd_event_handler.go:53-87 | the same when only events on one address, or a failure and a registration at one host, keep their order |
| Sync.SyncRoundTrip | discoverd/msd/msd_repo.go:79-102 | listing a table in any order and loading the list gives the same table iff each router is filed under its own service |
| Sync.LastRouterWins | discoverd/msd/msd_repo.go:91-102 | of several routers of one service the last in the list is kept |
| Sync.SyncCopiesReachableTables | command/sync.go:97-116 | a table that events produced arrives at another node unchanged |
| Sync.GoodListsLoadGoodTables | discoverd/msd/msd_repo.go:91-102 | a list of well-formed routers that puts each address at one node loads a good table, repeated services included |
| Sync.LoadedTableIsGoodIff | discoverd/msd/msd_repo.go:91-102 | when no service is repeated, a loaded table is good iff the list was |
| Sync.ReachableTablesAreGood | discoverd/msd/msd_repo.go:91-208 | every table reachable by events and by loads of such lists, in any order, is good |
| Fingerprints.ChecksumAfterRemoval | discoverd/msd/msd_repo.go:150-170 | removing an address subtracts exactly its hash from the service's checksum |
| Fingerprints.FingerprintsMatchIffRouted | discoverd/msd/msd_repo.go:210-260 | for a live application the two fingerprints are equal iff some consumed service is routed |
| Fingerprints.RefreshReports | discoverd/msd/msd_repo.go:210-226 | 32 zeros for an application that is not live; for a live one two lower-case hexadecimal digits for each byte of the routed checksums' sum modulo 256 |
| Fingerprints.RouterTableReports | discoverd/msd/msd_repo.go:228-260 | the routers are those of the consumed services in the table, in the consumer's order and once per mention; the fingerprint spells their sum, or is empty when there are none |
| Fingerprints.FingerprintIsChecksumOfAll | discoverd/msd/msd_repo.go:210-226 | the fingerprint is the checksum of all addresses of all consumed services taken together |
| Fingerprints.FingerprintSeesOnlyTheMultiset | discoverd/msd/msd_repo.go:210-226 | consumed services with the same addresses, in any order, give the same fingerprint |
| Fingerprints.SameFingerprintIff | discoverd/msd/msd_repo.go:210-226 | two tables give an application the same fingerprint iff the hashes of the addresses it consumes add up alike |
| Fingerprints.ReplicasGiveSameFingerprints | discoverd/msd/msd_repo.go:210-260 | converged replicas give each application the same two fingerprints |
| MsdRepo.DeleteAt | discoverd/msd/msd_repo.go:129 | the append idiom removes one element in place, in the same backing array |
| MsdRepo.Append | discoverd/msd/msd_repo.go:199 | appending writes in place while there is capacity, else moves to a new array |
| MsdRepo.DeleteMatching | discoverd/msd/msd_repo.go:125-131 | the descending loop stays in range and leaves exactly the order-preserving filter |
| MsdRepo.AddInto | discoverd/msd/msd_repo.go:269-271 | the byte loop adds one digest to the accumulator |
| MsdRepo.CalcChecksum | discoverd/msd/msd_repo.go:262-274 | the loops compute the checksum of the list |
| MsdRepo.HasAddr | discoverd/msd/msd_repo.go:191-197 | the search finds the address iff it is listed |
| MsdRepo.PutShown | discoverd/msd/msd_repo.go:136-140 | storing one service's slice leaves every other service and the ownership of all arrays as they were |
| MsdRepo.DiscoverdRepo.RemoveRouterByHost | discoverd/msd/msd_repo.go:120-143 | the object's table becomes that of a host failure, and no two services share an array |
| MsdRepo.DiscoverdRepo.RemoveRouter | discoverd/msd/msd_repo.go:145-170 | likewise for an unregistration |
| MsdRepo.DiscoverdRepo.AddRouter | discoverd/msd/msd_repo.go:172-208 | likewise for a registration; arrays are the old ones or new |
| MsdRepo.DiscoverdRepo.ListRouters | discoverd/msd/msd_repo.go:79-89 | returns each service's router once, in some order |
| MsdRepo.DiscoverdRepo.UpdateRouters | discoverd/msd/msd_repo.go:91-102 | replaces the whole table, the last router of a service winning; a good list gives a good table |
| MsdRepo.DiscoverdRepo.CalcRouterCheckSum | discoverd/msd/msd_repo.go:210-226 | the loops compute the string that Refresh reports: zeros, or the spelled sum of the routed checksums |
| MsdRepo.DiscoverdRepo.CalcRouterTable | discoverd/msd/msd_repo.go:228-260 | the k-th entry shows the table's router of the k-th consumed service that is in the table; the string spells their sum, or is empty when there are none |
| EventHandler.HandleEvent | command/agent/discoverd_event_handler.go:32-87 | a failed or leaving member's rows go; a registration puts its rows in and takes the address out of all others; an unregistration takes exactly the rows of its address; every other event leaves the table as it was |
| EventHandler.HandleEvents | command/agent/discoverd_event_handler.go:32-105 | after any series of Serf events a row is listed iff one of them put it there and none after that took it, and the table satisfies the invariant |
| Cache.Cache.constructor | discoverd/util/cache/cache.go:302-311 | a zero default lifetime means that items never expire |
| Cache.Cache.Set | discoverd/util/cache/cache.go:57-78 | stores the object, to expire after the duration if it is positive, after the default lifetime if it is zero and there is one, and never otherwise; nothing else changes |
| Cache.Cache.Get | discoverd/util/cache/cache.go:119-132 | returns the object iff it is present and the clock is not past its expiry instant |
| Cache.Cache.Add | discoverd/util/cache/cache.go:82-93 | stores likewise iff no live item has the key |
| Cache.Cache.Refresh | discoverd/util/cache/cache.go:97-115 | gives the item a new expiry instant through its pointer, and keeps its object, iff it is live |
| Cache.Cache.Delete | discoverd/util/cache/cache.go:135-143 | forgets the key |
| Cache.Cache.Flush | discoverd/util/cache/cache.go:266-270 | forgets everything |
| Cache.Cache.DeleteExpired | discoverd/util/cache/cache.go:146-160 | reports all that had expired when the sweep began, nothing that is live when it ends, and removes exactly what it reports |
| Cache.SweepStep | discoverd/util/cache/cache.go:150-159 | one turn of the sweep loop, with its own clock reading |
| CacheRuns.SweptRunAnswersAlike | discoverd/util/cache/cache.go:57-165 | a cache that lacks only expired items answers like one that was never swept |
| CacheRuns.JanitorIsInvisible | discoverd/util/cache/cache.go:57-165 | two runs with the same calls at the same times give the same answers, wherever sweeps come |
| CacheRuns.NothingIsLost | discoverd/util/cache/cache.go:57-165 | over any run, the item of the n-th store is still cached and nothing has happened to it, or it was overwritten, deleted, flushed or reported: one of these, once |
| CacheRuns.RenewedItemsSurvive | discoverd/util/cache/cache.go:97-115 | an item renewed with gaps of at most the lifetime is found by every lookup, refresh and attempt to add it again, and never reported |
| CacheRuns.SetItemsLiveAsAsked | discoverd/util/cache/cache.go:57-78 | an item set and left alone is found by every lookup up to the instant its duration asks for and by none after it; without one, for ever, and no sweep reports it |
| CacheRuns.AbandonedItemsAreReportedOnce | discoverd/util/cache/cache.go:146-165 | an item left alone is reported exactly once, by the first sweep after its expiry |
| CacheRuns.LeaseEndsWithinTwoPeriods | discoverd/util/cache/cache.go:277-288 | with a tick every ttl that is later than ttl and no later than twice ttl after the last renewal |
| Registry.Registry.Register | discoverd/msd/msd_repo.go:55-66 | caches the application until the default lifetime from now, and announces what it provides: the registration step, in any cluster of which the object is a node's share |
| Registry.Registry.Refresh | discoverd/msd/msd_repo.go:104-112 | renews the lease for the default lifetime iff it has not run out (the refresh step), and reports the spelled sum of the routed checksums the application consumes, or zeros |
| Registry.Registry.GetRouterTable | discoverd/msd/msd_repo.go:114-118 | answers iff the application is live, with the entries of exactly those consumed services that are in the table, in order, and their fingerprint |
| Registry.Registry.OnAppExpired | discoverd/msd/msd_repo.go:43-53 | announces one unregistration for each expired application |
| Registry.Registry.Sweep | discoverd/util/cache/cache.go:146-165 | likewise the sweep step: exactly the swept applications are announced as unregistered |
| Registry.Registry.Receive | command/agent/discoverd_event_handler.go:53-87 | likewise the delivery of an event, or of the failure of a host: it is applied to the table |
| Registry.LocalStepStands | discoverd/msd/msd_repo.go:43-112 | a local step changes a node's share of its cluster by what it does to the cache and nothing else, whatever the rest of the cluster is |
| Registry.ReceivingStands | command/agent/discoverd_event_handler.go:53-87 | the arrival of an event, from a node or from Serf, changes a node's share by what it does to the table and nothing else |
| Cluster.RunsStayConsistent | discoverd/msd/msd_repo.go:43-66 | in every reachable state, host failures and shared addresses included, each node's pending events turn its rows of each origin into what the origin's cache provides less what the table has lost |
| Cluster.CaughtUpTablesListTheCaches | discoverd/msd/msd_repo.go:43-66 | after any run, a node that has received everything lists exactly the cached applications of all nodes under the services they provide, except those that a step of the run took from it and that have not registered since |
| Cluster.TableMatchesCachesIffNothingLost | command/agent/discoverd_event_handler.go:42-87 | table and caches agree iff no step of the run took a cached application that provides a service without its having registered since |
| Cluster.CaughtUpTablesAgreeIff | discoverd/cluster/cluster.go:51-72 | two such nodes have the same services, addresses and checksums iff both have lost the same applications |
| Cluster.LostUntilRegisteredAgain | discoverd/msd/msd_repo.go:104-143 | from the step that takes an application to its next registration the table lists it under no service, at any moment and whatever else happens |
| Cluster.NothingLostAtHome | discoverd/msd/msd_repo.go:43-66 | nothing is ever lost in runs in which no host fails and each address registers at one node only |
| Cluster.HostFailureHidesALiveApplication | discoverd/msd/msd_repo.go:120-143 | two nodes: an application registers at one, the other hears of it and is then told that its host failed, it refreshes in time; nothing is on its way and the table stays without it |
| Leases.CachedIffRegistered | discoverd/msd/msd_repo.go:43-66 | at every moment of every run a node caches exactly what it has registered and not swept since, each as last registered |
| Leases.LeasesRunForTtl | discoverd/msd/msd_repo.go:55-112 | in every run each cached application expires exactly ttl after its last registration or timely refresh, and never if ttl is not positive |
| Leases.SweepsEndLeases | discoverd/util/cache/cache.go:146-165 | a sweep over by the end of a lease leaves the application cached; one that begins after it takes the application and announces that to every node |
| EventFilters.ValidIffInvocable | command/agent/event_handler.go:70-119 | a filter is valid iff some event invokes it |
| EventFilters.FilterTakes | command/agent/event_handler.go:70-102 | a filter takes events of its own kind only, and of its own name if it is a user or query filter with one |
| EventFilters.ParseEventFilter | command/agent/event_handler.go:162-188 | the loop parses each comma-separated piece |
| EventFilters.ParsedSingle | command/agent/event_handler.go:162-188 | what each form of filter text says |
| EventFilters.ParsedList | command/agent/event_handler.go:162-188 | a comma-separated text says what its pieces say |
| EventFilters.EmptyFilterTakesAll | command/agent/event_handler.go:162-166 | the empty text takes every event |
| EventFilters.ParseEventScript | command/agent/event_handler.go:138-158 | one script per filter before the first '='; without '=' the script runs on every event |
| EventFilters.FilterRoundTrip | command/agent/event_handler.go:162-188 | parsing what was printed gives the filters back iff something was printed, no part has a comma and each filter is unambiguous |
| Strings.SplitJoin | command/agent/event_handler.go:168 | splitting undoes joining for parts free of the separator |
| Strings.JoinSplit | command/agent/event_handler.go:168 | joining undoes splitting, for every text |
| Tags.MarshalTags | command/agent/agent.go:346-352 | one line per tag, in some order |
| Tags.UnmarshalTags | command/agent/agent.go:356-366 | parses the lines, failing on the first that is not key=value |
| Tags.UnmarshalledIff | command/agent/agent.go:356-366 | the lines are read iff each has a non-empty key before an equals sign |
| Tags.LastValueCounts | command/agent/agent.go:356-366 | a key has the value that the last line for it gives, equals signs included |
| Tags.KeysAreGiven | command/agent/agent.go:356-366 | every key comes from a line |
| Tags.TagsRoundTrip | command/agent/agent.go:346-366 | tags come back unchanged, in any order, iff every key is non-empty and free of '=' |
| Streams.Stream.Handle | command/agent/ipc_event_stream.go:35-51 | a matching value is queued behind the others, or dropped when 512 are queued, without blocking |
| Streams.OfferingIsFaithful | command/agent/ipc_event_stream.go:35-51 | what is sent and queued stays in order among what matched, and the dropped values account for the difference |
| Streams.ForwardingIsFaithful | command/agent/ipc_event_stream.go:57-76 | likewise when a value is taken from the queue, whether its send fails or not |
| Streams.Stream.StreamNext | command/agent/ipc_event_stream.go:57-76 | the head of the queue is sent, or streaming ends on a send error |
| Streams.CompleteIffNothingLost | command/agent/ipc_log_stream.go:30-64 | sent and queued records are all that matched, in order, iff none was dropped |
| Streams.Matches | command/agent/ipc_event_stream.go:37-42 | an event is taken iff at least one filter invokes it, and once even if several do |
| StreamRuns.StreamsHearTheirSpan | command/agent/agent.go:213-248 | in every run a stream's handler is called with exactly what is replayed to it at its registration and what is handed out from then to its stop |
| StreamRuns.StreamsSendTheirSpan | command/agent/ipc_event_stream.go:35-76 | what a stream sends is, in order, among those of these values that it accepts; with what is queued it is all of them iff none met a full queue |
| StreamRuns.RunIsSound | command/agent/ipc_event_stream.go:53-55 | in every reachable state a queue is open until its stream is stopped and was closed once otherwise |
| Streams.StreamQuery | command/agent/ipc_query_response_stream.go:26-52 | sends the records due up to the deadline, or as many as can be sent |
| Streams.DueRecordsFollow | command/agent/ipc_query_response_stream.go:26-52 | acks and responses become records with their node and payload, one for one and in order, up to the first deadline |
| Streams.DoneIsLast | command/agent/ipc_query_response_stream.go:26-52 | the done record is the last one and comes iff the deadline does |
| LogWriter.WriteHolds | command/agent/log_writer.go:76-77 | a write keeps the ring equal to the last lines written, across wrap-arounds |
| LogWriter.LineMeans | command/agent/log_writer.go:69-74 | one final newline is taken off a written text, and nothing else |
| LogWriter.ReplayIsSuffix | command/agent/log_writer.go:46-54 | what is replayed is a suffix of the history, and which |
| LogWriter.ReplayCompleteIff | command/agent/log_writer.go:46-54 | the last min(N, count) lines are replayed iff the ring has not wrapped or its oldest line is not empty |
| LogWriter.EmptyLineIsNotReplayed | command/agent/log_writer.go:46-54 | a ring of one line that holds an empty line replays nothing |
| LogWriter.HandlerReceivesSuffixThenLines | command/agent/log_writer.go:34-83 | over any run a handler receives that suffix and then exactly the lines written until it deregisters |
| LogWriter.LogWriter.RegisterHandler | command/agent/log_writer.go:34-55 | a new handler is sent the replay and loses none of it if its queue has room for the ring |
| LogWriter.LogWriter.DeregisterHandler | command/agent/log_writer.go:58-62 | the handler is removed |
| LogWriter.LogWriter.Write | command/agent/log_writer.go:65-83 | stores the line without its newline and hands it once to every registered handler |
| Handshake.Session.HandleRequest | command/agent/ipc.go:471-607 | a command is dispatched iff a handshake with version 1 and, when a key is set, an authentication with it came before; each refusal has its exact condition, and the connection closes on a missing handshake or an unrecognised command |
| Sessions.Agent.RegisterEventHandler | command/agent/agent.go:213-222 | the list names each registered handler once |
| Sessions.Agent.DeregisterEventHandler | command/agent/agent.go:225-234 | likewise after a removal |
| Sessions.Agent.FanOut | command/agent/agent.go:241-248 | each registered handler gets an event exactly once |
| Sessions.AgentIPC.Dispatch | command/agent/agent.go:241-248 | an event reaches every open stream, and no queue that was closed is ever sent to |
| Sessions.AgentIPC.Forward | command/agent/ipc_event_stream.go:57-76 | a stream's goroutine takes the next value, also after the stop |
| Sessions.AgentIPC.SentWhileRegistered | command/agent/ipc_event_stream.go:35-76 | at any time, what each stream object has sent is, in order, among the matching events dispatched between its registration and its stop |
| Sessions.AgentIPC.HandleStream | command/agent/ipc.go:842-879 | a stream is registered, with the filters parsed from the request, iff all of them are valid and its number is free |
| Sessions.AgentIPC.HandleMonitor | command/agent/ipc.go:881-918 | a log stream with the requested level filter is registered, and offered the replay, iff the level is known and there is none yet |
| Sessions.AgentIPC.WriteLog | command/agent/log_writer.go:65-83 | a written line is handed to every open log stream, and to no queue that was closed |
| Sessions.AgentIPC.SentWhileMonitoring | command/agent/ipc_log_stream.go:34-64 | at any time, what a monitor has sent is, in order, among the lines its level filter accepts of those replayed to it and those written until its stop |
| Sessions.AgentIPC.HandleStop | command/agent/ipc.go:920-943 | exactly the subscription with the given number is deregistered and its queue closed once |
| Sessions.AgentIPC.DeregisterClient | command/agent/ipc.go:422-442 | no handler of the client is left and each of its queues was closed exactly once |
| Wire.RequestsArriveIntact | command/agent/ipc.go:445-471 | the agent decodes exactly the requests the client encodes: both agree on which have bodies |
| Wire.RequestsGoOutInTurn | client/rpc_client.go:77-106 | requests are written one after the other, the header first and at most one object after it |
| Wire.DrainAppend | client/rpc_client.go:844-856 | reading a longer stream is reading its front and then the rest |
| Wire.DrainIgnores | client/rpc_client.go:811-840 | registering or removing a handler does not affect frames that are not for it |
| Wire.DropIsReadableIff | client/rpc_client.go:711-723 | taking any handler away leaves the stream readable iff no body on its way needs that handler; the others then read what they would have read |
| Wire.SubscriptionOrphans | client/rpc_client.go:430-450 | for an accepted subscription, a strict decoder needs the handler for every frame and a tolerant one for none |
| WireRuns.ReplyIsRead | client/rpc_client.go:751-784 | a response is read whole by the call that waits for it: it has a body iff the client decodes one |
| WireRuns.StepKeepsSyncIff | client/rpc_client.go:844-856 | from a state in sync, any step leaves the stream readable iff it leaves no body without a handler that needs one |
| WireRuns.RunsStayInSync | client/rpc_client.go:844-856 | in every run the client stands at a readable frame until the first disorderly step, which breaks it, whatever its decoder |
| WireRuns.ProperStepIsOrderlyIff | client/rpc_client.go:711-723 | when only accepted subscriptions are stopped, a step is disorderly iff the decoder is strict and the step leaves a record of a stopped one to be read |
| WireRuns.TolerantRunsStayInSync | client/rpc_client.go:844-856 | so a tolerant client reads on in every such run, and no stale header reaches a registered handler |
| WireRuns.RunKeepsShapes | command/agent/ipc.go:842-918 | whatever the order in which requests are sent, each call gets one response, with a body iff the client decodes one; each subscription one without a body, then records; a done record is the last |
| WireRuns.StopEndsItsTarget | command/agent/ipc.go:920-943 | serving a stop ends the subscription with that number and no other, and leaves its queue to be sent |
| WireRuns.StoppingWithARecordOnItsWay | client/rpc_client.go:711-723 | a run of seven steps after which the client meets a record where a header is due, which it can read iff its decoder is tolerant |
| ClientDispatch.NothingHappensTwice | client/rpc_client.go:430-463 | in every reachable state no call has had two outcomes, no channel was closed twice or sent to when closed, those of a registered handler are open, and a subscribing call that has returned has had its outcome |
| ClientDispatch.ClosedAndQuiet | client/rpc_client.go:175-186 | in every run, after Close and once all calls have returned, no handler is left and every subscription has had one outcome and closed its channels once |
| ClientDispatch.GoneIsGone | client/rpc_client.go:811-840 | a handler that has left never comes back, and its subscriber hears no more |
| ClientDispatch.HandlerLeavesIff | client/rpc_client.go:430-463 | a registered handler leaves when its call gives up, on Stop, on Close and on a bad or final record, and only then |
| ClientDispatch.FinalRecordEndsIt | client/rpc_client.go:595-650 | in every run, after a bad or final record the handler is gone for good, its call has had one outcome and its channels were closed once |
| ClientDispatch.SubHandler.Handle | client/rpc_client.go:430-450 | the first response settles the call and keeps the handler; after that it stays iff the record is good and not the last |
| ClientDispatch.SubHandler.Cleanup | client/rpc_client.go:452-463 | settles the call if nothing has, and closes the subscriber's channels once |
| ClientDispatch.RPCClient.BeginSub | client/rpc_client.go:466-485 | a fresh number and handler, registered before the request is sent |
| ClientDispatch.RPCClient.Send | client/rpc_client.go:77-106 | a request goes out iff the client is not shut down |
| ClientDispatch.RPCClient.BeginRPC | client/rpc_client.go:769 | the same for a plain call |
| ClientDispatch.RPCClient.ReturnGivingUp | client/rpc_client.go:769-783 | a call that returns without an outcome, or a plain call, leaves no handler behind |
| ClientDispatch.RPCClient.BeginClosing | client/rpc_client.go:175-182 | only the first Close goes on to tear down |
| ClientDispatch.RPCClient.DeregisterHandler | client/rpc_client.go:811-820 | removes one handler and cleans it up, leaving the others alone |
| ClientDispatch.RPCClient.RespondSeq | client/rpc_client.go:831-840 | a subscription's handler stays iff this is its response or a good record that is not the last; when it leaves its channels have been closed once; no other handler changes |
| ClientDispatch.RPCClient.StopSubscription | client/rpc_client.go:711-714 | performs the local half of Stop, for any handle |
| ClientDispatch.RPCClient.FinishClosing | client/rpc_client.go:800-808 | cleaning up one handler after another, in any order, performs the tear-down step: every subscription has had one outcome and one close |

## Left out

- Gossip, Lamport ordering and event coalescing in Serf: `Cluster` assumes that the events of one origin arrive in order and none is merged or lost.
- Loads from another node inside `Cluster` runs: a loaded table owes nothing to the caches; `Sync.ReachableTablesAreGood` covers the table's side.
- Encoding errors and size limits when an event is sent: `Register` and `OnAppExpired` only log them, and agreement would not hold.
- MessagePack, JSON, gob, base64 and MD5: the wire is a series of header and body tokens, the hash any function.
- Routers decoded with a checksum that is not sixteen bytes long: on a shorter one the source's checksum loops fail with an index out of range, on a longer one they ignore the rest.
- Snapshot stability of `ListRouters` and `GetRouterTable`: the returned slices share the table's arrays, and later removals show in them.
- Saving and loading the cache (`Save`, `Load`) and starting or stopping the janitor goroutine.
- The expiry handler is called only when a sweep has something to report; the model returns the report, empty or not.
- Races inside the atomic steps named above, such as an event that meets a queue being closed.
- I/O errors on a connection: a failed send ends a stream or a call, and nothing is said of the bytes already written.
- Requests before authentication: the body of a refused request stays unread, so `Wire` starts after the handshake and the authentication.
- A filtered member query with a bad regular expression closes the connection without a response; `WireRuns` does not take that step.
- Commands whose own error text is that of the authentication error: `WireRuns` assumes there is none.
- A subscriber channel used for two subscriptions at once: `ClientDispatch` gives each subscription its own.
- Two responses to one plain call: its channel holds one value; `WireRuns.RunKeepsShapes` shows that the agent sends only one.
- Pending queries and `handleRespond`, tag updates, key management and member listing: one lookup or one library call each.
- Event scripts, configuration merging, command-line commands, REST, mDNS and syslog: I/O or one-branch facts.
