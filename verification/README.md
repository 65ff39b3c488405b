# A verified model of the network statistics client

libntstat talks to the Darwin kernel over a control socket: it subscribes to TCP and UDP sources, asks for the
description of each source that arrives, polls for counters, and tells a listener about streams that arrive, are
updated and depart. This project models its protocol engine and proves what it guarantees over whole runs.

There are three layers.

* `model.dfy` is the client as a pure state machine. A `State` holds the source table, the two waiting tables, the
  send queue with its 16-bit sequence number, the map of requests awaiting a response, the subscription state and the
  error counters, and two histories: a log of what was written, read and scanned, and the callbacks made. An `Event` is
  a message read, a scan, a cleanup or a send, with the clock reading taken while it happens; `Step` is one event and
  `Exec` a run. `Replay` is the second interpreter of the message stream, the one that reads a recording.
* `client.dfy` is the client as the object it is: tables of shared mutable sources, updated in place, with the loops of
  the original. Every method is proved to do to the abstract state (`Model()`) what the state machine does, so all that
  is proved of `Exec` and `Replay` holds of `Run` and `RunRecording`. `Valid()` is the sharing between the three
  tables.
* The other modules are the theorems. `history.dfy`, `reports.dfy` and `polling.dfy` read tables, callbacks and requests
  off the log alone: what the source table holds, exactly when the listener is called and with what snapshot, and what
  is asked of the kernel. Then there are `cleanup.dfy` (garbage collection is unobservable, and exactly when),
  `replay.dfy` (replay agrees with the live run), `isolation.dfy` (sources do not interfere), `rate.dfy` and
  `timers.dfy` (update rate, freshness, retention), `listener.dfy` (order of callbacks), `correlation.dfy` (requests
  and responses), `errors.dfy` (the two error counters), `drain.dfy` and `requests.dfy` (what is asked for, once each, and of live sources only),
  `subscription.dfy` (the handshake and the queue), `frames.dfy` (the recording format), `codec.dfy` and `streams.dfy`
  (message fields, keys). `witnesses.dfy` holds runs, down to the bytes read, on which an expectation fails;
  `guarantees.dfy` puts the invariants together for every run that starts where `run` does.

## Environment

The clock is positive and does not go back. Cleanup takes a reading of its own, later than the one the loop passes to
the scan, so `Ordered` lets a scan carry an earlier reading than the cleanup before it. Listener callbacks do not
re-enter the client. Configuration and recording are chosen before the client runs, so they are constants of the
object. The table is empty when `run` starts. A message is the byte string one read returned; reading a field past its
end yields zero bytes. What is recorded was between 16 and 2048 bytes long and, if read from the kernel, not of a
request type. A request whose write fails is filed and logged like any other, as in the code.

## What the code does, where a reader might expect otherwise

* A source removed twice is reported as removed twice, and a source described only after its removal is announced, so
  that two announcements can follow each other (`RemovedTwice`, `AnnouncedTwice`, with the messages that cause it).
  The listener stays in step with the table through a run, with its callbacks in the order the header promises, exactly
  when every message about the source meets `Guard`, a test of the message against the table entry alone
  (`InStepExactlyWhenGuarded`); a kernel that conforms (`ConformingRun`) meets it. Unconditionally, between two
  announcements the first life was ended by an SRC_REMOVED, possibly one handled before its late announcement, and a
  new one begun by an SRC_ADDED (`BetweenAnnouncements`).
* Replay keeps removed sources for good. The replay of a run's recording agrees with the run exactly when no arrival or
  departure was lost, that is, was about a source which the run's cleanups had dropped
  (`ReplayAgreesExactlyWhenNoneLost`); over all placements of cleanups, when none is about a source already due for
  dropping (`ReplayAgreesWithLive`). `ReplayAnnouncesTheDropped` is a schedule of the main loop on which they differ.
* Context 0, which every notification carries, comes round as the context of a request after 65535 requests; the next
  notification, whatever it says, drops that request from the map (`NotificationDropsContextZero`). Any other context
  stands for one request only until it comes round in turn (`ContextIdentifiesRequest`).
* The public header says an interval of zero turns updates off; `configure` raises it to 30 like any interval below.
* The header says that `getNumDrops` is the number of ENOBUFS errors received. The error struct of the client is 24
  bytes with padding, and a shorter ERROR, such as the 20 bytes of the packed kernel headers, is counted as an error but
  not as a drop (`ShortOverrunIsNoDrop`); below 2^32 errors the header is right exactly when no ENOBUFS error was
  shorter (`DropsAreOverrunsUnlessShort`).
* docs/protocol.md says wired counters are missing before version 3789; only the 2422 handler leaves them alone.

## Model

| member | source | states |
|---|---|---|
| Client.NetworkStatisticsClient.constructor | src/NetworkStatisticsClientImpl.cpp:138-161 | a new client is in the initial state with intervals below 30 raised to 30 |
| Client.NetworkStatisticsClient.Send | src/NetworkStatisticsClientImpl.cpp:168-191 | a message joins the queue with its context and the 16-bit sequence number advances; in replay nothing happens |
| Client.NetworkStatisticsClient.WriteRequest | src/ntstat_kernel_3789.cpp:30-79 | a handler's write enqueues the encoded request under the current sequence number |
| Client.NetworkStatisticsClient.Record | src/NetworkStatisticsClientImpl.cpp:572-579 | the file grows by exactly one frame |
| Client.NetworkStatisticsClient.RecordEntry | src/NetworkStatisticsClientImpl.cpp:553-562 | the file stays the frames of the logged history |
| Client.NetworkStatisticsClient.Transmit | src/NetworkStatisticsClientImpl.cpp:361-381 | a written request is logged, recorded and filed under its context |
| Client.NetworkStatisticsClient.RequestDescription | src/NetworkStatisticsClientImpl.cpp:392-398 | with an empty queue, the first waiting source leaves the table and its description is asked for |
| Client.NetworkStatisticsClient.PopWaitingForCount | src/NetworkStatisticsClientImpl.cpp:402-413 | the first waiting entry is taken, and is wanted exactly when its source is live, in the table, and still without counts |
| Client.NetworkStatisticsClient.SendNextMsg | src/NetworkStatisticsClientImpl.cpp:388-437 | refines one send of the state machine |
| Client.NetworkStatisticsClient.RemoveOldSources | src/NetworkStatisticsClientImpl.cpp:458-475 | the erasing loop computes the cleanup of the state machine and keeps the sharing |
| Client.NetworkStatisticsClient.UpdateWaitForCountsQueue | src/NetworkStatisticsClientImpl.cpp:281-304 | the loop marks exactly the due sources and lists them for a query |
| Client.NetworkStatisticsClient.ResetSource | src/NetworkStatisticsClientImpl.cpp:496-518 | returns the live source of that reference, or installs a fresh object in place of a removed or missing one |
| Client.NetworkStatisticsClient.LookupSource | src/NetworkStatisticsClientImpl.cpp:523-533 | the source of that reference, or none |
| Client.NetworkStatisticsClient.AddToWaitingForDesc | src/NetworkStatisticsClientImpl.cpp:743-746 | the source joins the description table and the sharing is kept |
| Client.NetworkStatisticsClient.RemoveFromWaitingForDesc | src/NetworkStatisticsClientImpl.cpp:748-751 | the source leaves the description table, if it was there |
| Client.NetworkStatisticsClient.MarkForRemove | src/NetworkStatisticsClientImpl.cpp:439-453 | marking a source makes its entry in the count table stale and takes it out of the description table |
| Client.NetworkStatisticsClient.HandleSrcAdded | src/NetworkStatisticsClientImpl.cpp:785-795 | refines the SRC_ADDED branch |
| Client.NetworkStatisticsClient.HandleSrcRemoved | src/NetworkStatisticsClientImpl.cpp:796-809 | refines the SRC_REMOVED branch, callback included |
| Client.NetworkStatisticsClient.HandleSrcDesc | src/NetworkStatisticsClientImpl.cpp:810-846 | refines the SRC_DESC branch, callback included |
| Client.NetworkStatisticsClient.HandleSrcCounts | src/NetworkStatisticsClientImpl.cpp:847-873 | refines the SRC_COUNTS branch, callback included |
| Client.NetworkStatisticsClient.ReadIpSrcDesc | src/ntstat_kernel_3789.cpp:156-213 | key and process are those of the descriptor; an IPv4 address overwrites four bytes of the union |
| Client.NetworkStatisticsClient.ReadSrcDesc | src/ntstat_kernel_3789.cpp:119-131 | by version and provider: the described stream, or rejection with the stream untouched |
| Client.NetworkStatisticsClient.UpdateCounts | src/NetworkStatisticsClientImpl.cpp:850-867 | counters, update callback, timestamp and flag of one source after SRC_COUNTS |
| Client.NetworkStatisticsClient.GetSrcRef | src/ntstat_kernel_3248.cpp:86-116 | the switch yields the reference and provider fields of each version's layout |
| Client.NetworkStatisticsClient.GetAndLogError | src/NetworkStatisticsClientImpl.cpp:611-646 | errors are counted, drops only for a full-size ENOBUFS error |
| Client.NetworkStatisticsClient.EnterStateRequestTcpSrc | src/NetworkStatisticsClientImpl.cpp:665-672 | the TCP subscription is queued and its answer awaited |
| Client.NetworkStatisticsClient.EnterStateRequestUdpSrc | src/NetworkStatisticsClientImpl.cpp:652-659 | the UDP subscription is queued and its answer awaited |
| Client.NetworkStatisticsClient.EnterRunningState | src/NetworkStatisticsClientImpl.cpp:681-685 | only the subscription state changes |
| Client.NetworkStatisticsClient.HandleState | src/NetworkStatisticsClientImpl.cpp:690-738 | refines the subscription transitions |
| Client.NetworkStatisticsClient.TakeRequest | src/NetworkStatisticsClientImpl.cpp:768-773 | the request with the message's context, if any, is taken out of the map |
| Client.NetworkStatisticsClient.HandleResponseMessage | src/NetworkStatisticsClientImpl.cpp:757-899 | refines the handling of every message, type by type |
| Client.NetworkStatisticsClient.ReadNextMessage | src/NetworkStatisticsClientImpl.cpp:586-594 | a non-empty read is recorded, then handled |
| Client.NetworkStatisticsClient.CheckTimers | src/NetworkStatisticsClientImpl.cpp:330-341 | the two timer checks run cleanup and scan when, and only when, the schedule says |
| Client.NetworkStatisticsClient.Iterate | src/NetworkStatisticsClientImpl.cpp:328-347 | one iteration is its timer checks, one send and its inbox, in that order |
| Client.NetworkStatisticsClient.DrainSocket | src/NetworkStatisticsClientImpl.cpp:345-346 | all waiting messages are handled in order |
| Client.NetworkStatisticsClient.Run | src/NetworkStatisticsClientImpl.cpp:309-351 | the main loop is the run of its schedule of events, and ends in a state that satisfies the invariant |
| Client.NetworkStatisticsClient.ReadFrame | src/NetworkStatisticsClientImpl.cpp:955-988 | a frame is read exactly when it is whole and of acceptable length |
| Client.NetworkStatisticsClient.RememberRequest | src/NetworkStatisticsClientImpl.cpp:1003-1013 | a replayed request is filed under the context it carries |
| Client.NetworkStatisticsClient.ReplayMessage | src/NetworkStatisticsClientImpl.cpp:990-1022 | requests only enter the correlation map, other messages are handled as received |
| Client.NetworkStatisticsClient.RunRecording | src/NetworkStatisticsClientImpl.cpp:939-1027 | the loop is the replay of the frames the reader accepts |
| Client.NetworkStatisticsClient.TablesShareSources | src/NetworkStatisticsClientImpl.cpp:743-751 | which object each table holds: the live source itself, or in the count table one already removed |
| Model.ExecKeepsWF | src/NetworkStatisticsClientImpl.cpp:785-873 | in every reachable state only live undescribed sources wait for descriptions and only live described ones for counts; references fit the version |
| History.TableIsHistory | src/NetworkStatisticsClientImpl.cpp:785-873 | in every run, which sources are live, and every flag, time and stream field of every source in the table, are those that the messages, scans and removals logged since its life began determine |
| Reports.UpdateReported | src/NetworkStatisticsClientImpl.cpp:847-868 | SRC_COUNTS of a source in the table makes exactly one update, showing those counters, if and only if the source was described in this life, selected by a scan that no counts have followed, and packets are counted |
| Reports.ArrivalReported | src/NetworkStatisticsClientImpl.cpp:810-838 | SRC_DESC makes exactly one arrival if and only if it is the first accepted one of this life and names a local or remote port |
| Reports.DepartureReported | src/NetworkStatisticsClientImpl.cpp:796-808 | SRC_REMOVED makes exactly one departure if and only if the last description of this life names a port |
| Reports.NothingElseReported | src/NetworkStatisticsClientImpl.cpp:757-899 | no other event calls the listener |
| Reports.AnnouncedAsLaidOut | src/ntstat_kernel_3789.cpp:156-213 | in any run and version, a stream laid out by the kernel as TCP or UDP is announced with that key, protocol, process and state, if it has a port |
| Reports.StreamComesAndGoes | src/NetworkStatisticsClientImpl.cpp:796-838 | from the start of `run`: arrival, description and departure of a stream make one arrival and one departure that show it, if it has a local or remote port, and nothing otherwise |
| Reports.OtherProvidersDecode | src/ntstat_kernel_4570.cpp:116-127 | descriptions by other providers name no stream; xnu-4570 accepts them |
| Guarantees.UpdatesOfRun | src/NetworkStatisticsClientImpl.cpp:854-857 | for every run from the start and every source live by its log: an update with these counters if and only if described, asked for since the last counts, and non-zero |
| Guarantees.ArrivalsOfRun | src/NetworkStatisticsClientImpl.cpp:829-834 | the same for arrivals |
| Guarantees.DeparturesOfRun | src/NetworkStatisticsClientImpl.cpp:804-806 | the same for departures |
| Cleanup.CleanupNeverChangesRequests | src/NetworkStatisticsClientImpl.cpp:458-475 | dropping any cleanups from a run changes neither requests, queues, correlation map, subscription nor counters |
| Cleanup.TimelyHidesCleanup | src/NetworkStatisticsClientImpl.cpp:496-518 | if no callback comes too late, no placement of cleanups changes the callbacks |
| Cleanup.EagerLosesLateCallbacks | src/NetworkStatisticsClientImpl.cpp:458-475 | if one does, cleaning up before every message loses a callback |
| Cleanup.CleanupUnobservable | src/NetworkStatisticsClientImpl.cpp:458-475 | both directions: unobservable for every placement if and only if no callback comes too late |
| Cleanup.HiddenExactlyWhenNoneLost | src/NetworkStatisticsClientImpl.cpp:458-475 | for one run and its own cleanups: the callbacks are those without cleanups if and only if none was about a source dropped by then; otherwise they are fewer |
| Cleanup.WithinGraceIsTimely | src/NetworkStatisticsClientImpl.cpp:76-77 | it suffices that nothing but SRC_ADDED is said about a source removed more than 30 seconds ago |
| ReplaySimulation.ReplayReproduces | src/NetworkStatisticsClientImpl.cpp:939-1027 | replaying a live run's file gives the arrivals and departures of the run without cleanups, snapshots equal and updates missing, and the run's correlation map and counters |
| ReplaySimulation.ReplayAgreesWithLive | src/NetworkStatisticsClientImpl.cpp:553-579 | replay and live agree for every placement of cleanups if and only if no arrival or departure comes too late |
| ReplaySimulation.ReplayAgreesExactlyWhenNoneLost | src/NetworkStatisticsClientImpl.cpp:939-1027 | for one run and its own recording: replay and run report the same arrivals and departures if and only if none was lost to a cleanup |
| Witnesses.ReplayAnnouncesTheDropped | src/NetworkStatisticsClientImpl.cpp:325-347 | a schedule of the main loop that reports nothing while the replay of its recording reports an arrival |
| ReplaySimulation.TruncatedRecordingReplaysPrefix | src/NetworkStatisticsClientImpl.cpp:955-988 | a file cut at any byte replays a prefix of the run, the one with as many frames as lie wholly before the cut |
| ReplaySimulation.ReplayPhase | src/NetworkStatisticsClientImpl.cpp:939-1027 | a replay that opens with a subscription starts over, and is RUNNING from the first SUCCESS or ERROR on; any other is RUNNING throughout |
| Isolation.Noninterference | src/NetworkStatisticsClientImpl.cpp:757-899 | for every source, its callbacks are those of the run on its own messages and the timers |
| Guarantees.SourcesDoNotInterfere | src/NetworkStatisticsClientImpl.cpp:757-899 | the same for runs from the start of `run` |
| Rate.UpdateRate | src/NetworkStatisticsClientImpl.cpp:281-304 | updates i and j of one source are 15 + (j - i - 1) * interval seconds apart or more, across reuse of the reference |
| Timers.ScheduleIsOrdered | src/NetworkStatisticsClientImpl.cpp:325-347 | if the clock runs forward the events of the loop are ordered |
| Timers.ScheduleIsSpaced | src/NetworkStatisticsClientImpl.cpp:337-341 | scans of the loop are at least an interval apart |
| Timers.UpdateRateOfRun | src/NetworkStatisticsClientImpl.cpp:847-868 | the rate bound for every run of the main loop |
| Timers.OnlyCleanupErases | src/NetworkStatisticsClientImpl.cpp:458-475 | a source leaves the table by cleanup only, and more than 30 seconds after it was marked |
| Timers.RemovedSourcesAreDropped | src/NetworkStatisticsClientImpl.cpp:325-335 | after the checks of every iteration no removed source was marked more than 90 seconds ago |
| Timers.CleanupsAreSpaced | src/NetworkStatisticsClientImpl.cpp:325-335 | an iteration cleans up if and only if more than 60 seconds have passed since the loop began and since every earlier cleanup |
| Timers.CountsStayFresh | src/NetworkStatisticsClientImpl.cpp:325-343 | after the checks of every iteration a connection silent for 15 seconds plus an interval has its query waiting or written since the last scan |
| ListenerProtocol.InStepExactlyWhenGuarded | src/NetworkStatisticsClientImpl.cpp:785-873 | callbacks in order, and the stream open at the listener exactly while the table holds the source live with ports, after every event, if and only if every message met the guard on table entry and message |
| Guarantees.InStepExactlyWhenKernelIsGuarded | include/NetworkStatisticsClient.hpp:21-29 | the same for runs from the start of `run` |
| ListenerProtocol.ListenerHearsInOrder | include/NetworkStatisticsClient.hpp:156-167 | a conforming kernel meets the guard, so the callbacks are a prefix of (Added Update* Removed)* |
| ListenerProtocol.AnnouncedOncePerLife | src/NetworkStatisticsClientImpl.cpp:827-837 | unconditionally, a new life begins between any two announcements |
| ListenerProtocol.BetweenAnnouncements | src/NetworkStatisticsClientImpl.cpp:496-518 | between two announcements the life of the first has been ended by an SRC_REMOVED and a new one begun by an SRC_ADDED, in that order; the SRC_REMOVED comes after the first announcement if that was of a live source |
| Witnesses.RemovedTwice | src/NetworkStatisticsClientImpl.cpp:796-808 | a run from the start, on messages of the client's version, that reports Added, Removed, Removed |
| Witnesses.AnnouncedTwice | src/NetworkStatisticsClientImpl.cpp:810-838 | one that reports Added, Added: the description came after the removal |
| Guarantees.ConformingKernelIsHeardInOrder | include/NetworkStatisticsClient.hpp:21-29 | the listener protocol for runs from the start of `run` |
| Correlation.CorrelationEqualsHistory | src/NetworkStatisticsClientImpl.cpp:768-773 | a context is in the map exactly when a request with it was written and no message with it has come or gone since |
| Correlation.ContextsCountRequests | src/NTStatKernelStructHandler.hpp:86-90 | contexts on the wire are 1, 2, 3, ... modulo 65536 |
| Correlation.ResponsesFindTheirRequest | src/NetworkStatisticsClientImpl.cpp:376-378 | below 65536 requests a response is matched to the one request with its context, a notification to none |
| Correlation.ContextIdentifiesRequest | src/NetworkStatisticsClientImpl.cpp:1058 | a pending context was carried by one written request only if and only if fewer than context + 65536 have been written (131072 for context 0) |
| Correlation.NotificationDropsContextZero | src/NetworkStatisticsClientImpl.cpp:768-773 | a notification of any version drops the request pending under context 0 and no other |
| Correlation.MapIsBounded | src/NetworkStatisticsClientImpl.cpp:1058-1060 | the map never exceeds 65536 requests |
| ErrorCounters.CountersTallyErrors | src/NetworkStatisticsClientImpl.cpp:611-646 | in every run the error counter is the number of ERROR messages received and the drop counter that of full-size ENOBUFS ones, modulo 2^32 |
| ErrorCounters.DropsAreOverrunsUnlessShort | include/NetworkStatisticsClient.hpp:94-99 | below 2^32 errors the drop counter is the number of ENOBUFS errors received if and only if none was shorter than 24 bytes |
| ErrorCounters.ShortOverrunIsNoDrop | src/NetworkStatisticsClientImpl.cpp:619-623 | a run with one 20-byte ENOBUFS error counts one error and no drop |
| Draining.SendFollowsPlan | src/NetworkStatisticsClientImpl.cpp:388-437 | what is written plus what is planned is conserved, and the backlog shrinks by one per call |
| Draining.DrainWritesPlan | src/NetworkStatisticsClientImpl.cpp:388-437 | draining writes the queue, then descriptions, then wanted counts, in ascending order, and empties all three |
| Draining.AscendingIsSorted | src/NetworkStatisticsClientImpl.cpp:394-405 | the plan visits references in strictly ascending order |
| Requests.RequestFields | src/ntstat_kernel_2782.cpp:29-52 | a request for a reference that fits decodes to that type and reference |
| Requests.SendOutcome | src/NetworkStatisticsClientImpl.cpp:388-437 | which request one call writes, as the kernel decodes it |
| Requests.NoRequestDuplicated | src/NetworkStatisticsClientImpl.cpp:785-795 | at most one description request per SRC_ADDED and one query per scan that selected the source, waiting ones included |
| Requests.OnlyLiveSourcesAsked | docs/protocol.md:39 | no description or counts are ever asked for of a source not live at that moment |
| Requests.NoSourceForgotten | src/NetworkStatisticsClientImpl.cpp:743-751 | a live source is described, waiting, or has been asked about or answered for since it arrived |
| Polling.PollingIsHistory | src/NetworkStatisticsClientImpl.cpp:281-304 | in every run a scan selects exactly the live sources last described with a remote port and silent for 15 seconds; the waiting tables hold exactly what the log says is due; no request is written that is not due |
| Polling.QueryFollowsScan | src/NetworkStatisticsClientImpl.cpp:402-413 | a query for counts follows a scan that selected the source, with no counts, removal, new life or other query in between |
| Polling.DrainWritesWhatIsDue | src/NetworkStatisticsClientImpl.cpp:388-437 | draining writes the queue, then every description due and every query due by the log, ascending, and nothing else |
| Polling.EntriesKeepTheirTurn | src/NetworkStatisticsClientImpl.cpp:402-413 | an entry waiting for counts, of a removed source too, leaves the table only by its turn to be sent |
| Guarantees.QueriesOfRun | src/NetworkStatisticsClientImpl.cpp:407-412 | `QueryFollowsScan` for every run from the start |
| Guarantees.RequestsOfRun | src/NetworkStatisticsClientImpl.cpp:388-437 | `DrainWritesWhatIsDue` after every run from the start |
| SubscriptionProtocol.HandshakeEnds | src/NetworkStatisticsClientImpl.cpp:690-738 | every SUCCESS or ERROR lowers the rank, so two reach RUNNING, which is never left |
| SubscriptionProtocol.SubscriptionsInSequence | src/NetworkStatisticsClientImpl.cpp:652-672 | in every run the subscription state and the subscriptions made are those determined by the SUCCESS and ERROR messages read, TCP before UDP |
| SubscriptionProtocol.UdpExactlyWhenGranted | src/NetworkStatisticsClientImpl.cpp:703-717 | after TCP, UDP is subscribed to if and only if it is wanted and the first answer was a SUCCESS or an ERROR of at least 24 bytes with code 0 or ENOBUFS |
| Guarantees.UdpFollowsTcp | src/NetworkStatisticsClientImpl.cpp:703-717 | the same for every run from the start |
| SubscriptionProtocol.QueueHoldsOne | src/NetworkStatisticsClientImpl.cpp:322-347 | the queue never holds more than one message |
| Guarantees.EveryRunIsSound | src/NetworkStatisticsClientImpl.cpp:309-351 | all invariants hold after any events from the start of `run` |
| Guarantees.MainLoopIsSound | src/NetworkStatisticsClientImpl.cpp:328-347 | and so after any run of the main loop |
| Frames.TruncatedRecording | src/NetworkStatisticsClientImpl.cpp:955-988 | any byte prefix of a recording reads back as exactly the frames wholly inside it |
| Frames.RecordingRoundTrip | src/NetworkStatisticsClientImpl.cpp:572-579 | a whole recording reads back in full, timestamps cut to 32 bits |
| Frames.ReaderStopsAtIllSizedFrame | src/NetworkStatisticsClientImpl.cpp:955-988 | frames are read on while their messages are 16 to 2048 bytes long, and no further than the first that is not |
| Codec.RefRoundTrip | src/ntstat_kernel_3248.cpp:30-53 | a reference survives being written exactly when it fits the version's field |
| Codec.DecodedRefSurvives | src/ntstat_kernel_3248.cpp:86-116 | every reference taken from a message does |
| Codec.EncodeRef | src/ntstat_kernel_2422.cpp:28-51 | a request carries its reference cut to the version's width |
| Codec.EncodeHeader | src/NTStatKernelStructHandler.hpp:86-90 | a request carries its type and the sequence number as context |
| Codec.RequestOnTheWire | src/NTStatKernelStructHandler.hpp:86-90 | context, type number, length of the whole message and flags of a request, and the size of each version's struct |
| Codec.SubscriptionIsBlank | src/ntstat_kernel_4570.cpp:58-79 | a subscription sets nothing in its payload but the provider |
| Codec.NoticeDecodes | src/ntstat_kernel_3789.h:338-401 | a notification laid out as in the kernel header of any version is read as what it says: type, reference, provider |
| Codec.SubscriptionsMatchDescriptions | src/ntstat_kernel_4570.cpp:58-79 | every version subscribes to a provider whose descriptions it reads as TCP, respectively UDP |
| Streams.KeyOrderTransitive | src/NetworkStatisticsClientImpl.cpp:1171-1204 | the key order is transitive |
| Streams.KeyOrderTrichotomy | src/NetworkStatisticsClientImpl.cpp:1171-1204 | it is asymmetric, and neither key is less exactly when they agree on all compared fields |
| Streams.KeyOrderRespectsSameStream | src/NetworkStatisticsClientImpl.cpp:1171-1204 | equivalent keys are interchangeable, so it is a strict weak order |
| Streams.KeyOrderIsLexicographic | src/NetworkStatisticsClientImpl.cpp:1171-1204 | the order is the lexicographic one on family, protocol, local port, remote port, interface, local and remote address |

## Left out

- Client.NetworkStatisticsClient.ReadSrcDesc: the byte layout of the descriptor and counter payloads, which rests on the socket address structs of the system, is a parameter of the handler, so the theorems hold for any layout; only header, reference, provider and error fields are decoded from bytes.
- Client.NetworkStatisticsClient.ReadIpSrcDesc: the descriptor it stores is the handler's reading of the message, whose field offsets are not modelled.
- ListenerProtocol.ListenerHearsInOrder: one direction only, since a kernel may break the assumption without harm; InStepExactlyWhenGuarded is the exact condition.
- Socket set-up, select, raw reads and writes, opening files, sleeping and parsing the kernel version: messages and clock readings are inputs, and the recording file is a byte string.
- Messages too short for their struct: fields past the end read as zero instead of whatever the buffer holds.
- Return codes of the message handlers, which neither loop looks at.
- Logging, message names and the demo and replay programs: display only.
- The interface-source state, the query for all descriptions and the duplicate-checking enqueue: never reached.
- Freeing of sources, C string copies and their buffer bounds: memory management.
- `stop` from another thread: a run ends when its schedule does.
- Counters and timestamps of streams as machine words: they are copied, never computed with; the 16-bit sequence number, the 32-bit error counters and the 32-bit recording timestamps do wrap.
