# Spectra, modelled and proved in Dafny

Spectra is a macOS diagnostics tool with a background daemon. This project models the parts of it
that carry hard promises, and proves them for all inputs, all runs and all schedules:

- the daemon protocol: a JSON-RPC client with concurrent calls, the daemon's side of a connection, the
  two together, the daemon's graceful drain, the drain with all connections, and all of it with a
  client on every connection (`DaemonClient`, `ClientObjects`, `Dispatching`, `DaemonServer`,
  `DaemonProtocol`, `Drain`, `Daemon`, `Service`);
- the single-instance protocol over a file lock, a socket and a PID file, with crashes (`SingleInstance`);
- the flamegraph pipeline, from an indented call graph over folded stacks and a merged tree to
  rectangles (`CallGraph`, `FlameTrie`, `FlameLayout`, `FlameCanvas`);
- the blob cache: background writer, sharded paths, overlapping Puts over shared files, expiring blobs
  (`AsyncCache`, `Sharded`, `BlobCache`, `Ttl`);
- crash-atomic file replacement and the append-only manifest on top of it (`AtomicFile`, `Manifest`);
- the streaming binary scan (`BinaryMarkers`), the rolling-baseline detector (`Anomaly`), GC-log
  summaries (`GcLog`), and asar inventories and their diff (`Asar`, `AsarDiff`).

`Basics`, `Counting`, `Ordering` and `JsonRpc` hold shared types and lemmas.

Code that loops over buffers, stacks, maps or files is modelled by methods with loop invariants, or by
classes whose methods change fields, each proved against a specification function. What runs
concurrently (goroutines, processes) is a step system: a state, a datatype of events, and a total step
function in which an impossible event changes nothing, so that a run is any sequence of events. Each
such module has an invariant; a module named after it ending in `Runs` (`BlobRuns`, `CacheRuns`,
`ClientRuns`, ...) proves that every event keeps it, and the theorems about every run; `ProtocolProgress` and
`ServiceProgress` prove that no state of the service is a dead end. System calls that
may fail, clocks, random names, JSON coding, hashing and regular expressions are parameters. Floats are
reals and counters are unbounded; the expiry in `Ttl` is a signed 64-bit number that wraps around.

Where the code falls short of what one might expect, a lemma gives an input that shows it and another the
exact condition: `FlameCanvas.NestedRootsOffCanvas` with `RowsOnCanvas`, `FlameTrie.OutweighedIsInflated`
with `FoldKeepsCounts`, `GcLog.UnitsFail` with `LeftUnit` and `RightUnit`, `CacheRuns.NoWorkersDropWrites`
with `NeverDropsExactly`, `InstanceRuns.StalePidAfterCrash` with `PidNamesHolderExactly`,
`ServerRuns.UnencodableGetsNoReply` with `OneResponse`, `Asar.SlashCollides` and `EmptyNameCollides` with
`SamePath` and `ParseHeader`, `Dispatching.LostWakeUp` with `MissesExactly`. A `Put` whose rename fails leaves
its temp file behind: `BlobRuns.TempLeftExactly`.

Where comments in the code and the code differ, the code is followed: `DiffArchives` is documented as
comparing hashes, but compares sizes when either entry has none; the canvas height is documented as
leaving out the synthetic root, but leaves out every frame named "root"; the background writer is
documented as never dropping data, which needs a worker.

## Model

| member | source | states |
|---|---|---|
| `ProtocolRuns.CallReturnsOwnResult` | internal/daemonclient/client.go:68-112 | under every interleaving of calls, handlers, cancellations, lost, repeated or null-id replies and closes, a call that returns a response returns the only response the daemon made to that call's own request line: the text its handler returned for that method and those params, or -32601, -32602 or -32603 exactly when the method is unknown, the params are bad, or the handler fails or panics |
| `ProtocolRuns.ReplyIsOwn` | internal/daemonclient/client.go:168-212 | whatever the reader matched to a call's id is the one response to that call's own request, with the body that the handler's outcome calls for |
| `ProtocolRuns.OwnLine` | internal/daemonclient/client.go:74-93 | a request line the daemon reads with a call's id is that call's line, with its method and params |
| `ProtocolRuns.RunKeeps` | internal/daemon/server.go:267-311 | in every run of client and daemon both sides' invariants hold, the daemon's input is a prefix of what the client wrote, and every numbered reply was written by the daemon |
| `ProtocolProgress.LineServed` | internal/daemon/server.go:267-367 | from every state of a connection whose reader has not ended, any line received can still be read and, if it is a request, its handler run to its end |
| `ClientRuns.ReplyBeatsClose` | internal/daemonclient/client.go:97-111 | a call whose reply is in its channel when the client closes never returns ErrClosed, whatever comes after |
| `ClientRuns.ErrorsAreTrue` | internal/daemonclient/client.go:68-112 | in every run an error a caller gets is true: ErrClosed only of a closed client, a cancellation only of a call that was cancelled, a write error only of one whose write failed |
| `ClientRuns.CallGoesOn` | internal/daemonclient/client.go:68-112 | no call is ever stuck: until it returns a step of its own brings it nearer to that, except while it waits with an empty channel on an open client, and no other goroutine's step moves it |
| `ClientRuns.ReplyDelivered` | internal/daemonclient/client.go:198-210 | a reply read for a call that has not returned is in that call's channel two reader steps later |
| `ClientRuns.ReaderNeverBlocks` | internal/daemonclient/client.go:168-212 | from any state of any run the reader, by its own steps alone, reads all lines there are, whether or not callers take their replies |
| `ClientRuns.PendingIsExact` | internal/daemonclient/client.go:74-80 | the pending map holds exactly the registered calls that have not returned |
| `ClientRuns.NotificationsInOrder` | internal/daemonclient/client.go:148-166 | what callbacks have been called with is a prefix of the notifications read while a callback was set, in read order, each once and with the callback of its time |
| `ClientRuns.DispatcherReturnsEmpty` | internal/daemonclient/client.go:148-161 | the dispatcher returns only when closed and with an empty queue, when all that was queued has been handed over |
| `Dispatching.MissesExactly` | internal/daemonclient/client.go:138-166 | the dispatcher can sleep through the close exactly when the broadcast, which is made without the mutex, comes between its look at the client and its wait, and then it never returns while nothing more is read |
| `Dispatching.ReturnsUnlessMissed` | internal/daemonclient/client.go:148-166 | otherwise it never sleeps again, and its own steps take it to its return, with a callback called for every notification read by then |
| `Dispatching.LostWakeUp` | internal/daemonclient/client.go:138-158 | a run in which the broadcast comes there |
| `Dispatching.EveryNoteIsCalled` | internal/daemonclient/client.go:148-166 | notifications are never slept through: from any state of any run the dispatcher's own steps call all that are queued, every notification read is called once, and it sleeps only when all have been |
| `Dispatching.ReadReachesQueue` | internal/daemonclient/client.go:185-196 | with the mutex free the reader's steps add one notification and the dispatcher is not asleep after them |
| `ClientRuns.RunsKeep` | internal/daemonclient/client.go:68-212 | in every run: ids are unique, buffered and returned replies came off the wire for the call's id, sent lines belong to calls, and no notification is lost, repeated or reordered |
| `ClientObjects.ClientObject.Enter` | internal/daemonclient/client.go:68-80 | entering a call fails exactly when the client was closed as it looked, whatever the others do before it registers; otherwise the call is registered under its id in the pending map |
| `ClientObjects.ClientObject.Register` | internal/daemonclient/client.go:74-79 | the call gets an id that no pending call has, an empty channel and an entry in the pending map |
| `ClientObjects.ClientObject.Send` | internal/daemonclient/client.go:81-96 | a request that is encoded and written is appended to what was sent; otherwise nothing is sent and the call is on its way out with that error; no other call changes |
| `ClientObjects.ClientObject.Await` | internal/daemonclient/client.go:97-111 | the selects: a verdict unless nothing is ready, then the reply in the channel, the end of the context if it has ended, or ErrClosed if the client is closed and no reply has come |
| `ClientObjects.ClientObject.Leave` | internal/daemonclient/client.go:80 | the call returns its verdict and only its own id leaves the pending map |
| `ClientObjects.ClientObject.Call` | internal/daemonclient/client.go:68-112 | with any steps of the rest of the client between its own, a caller gets a response that came off the wire for this call's own id, or an error that is true: the client is closed and no reply had come by then, the write failed, or the context ended; when it returns, its id is no longer pending |
| `ClientObjects.ClientObject.Wait` | internal/daemonclient/client.go:97-112 | a waiting call, resumed any number of times, gets the same, and waits on only if no reply has come, the client is open and the context has not ended |
| `ClientObjects.ClientObject.Close` | internal/daemonclient/client.go:138-145 | only the first close does anything, and replies in channels and queued notifications stay |
| `ClientObjects.ClientObject.PutReply` | internal/daemonclient/client.go:205-210 | the send on a call's channel always completes: a full channel stays as it is, an empty one holds the reply, no other call changes |
| `ClientObjects.ClientObject.ReadOne` | internal/daemonclient/client.go:168-212 | one turn of the read loop: a reply goes into the channel of the one call that has its id and has not returned, if that channel is empty; a notification is queued exactly when a callback is set; nothing else changes |
| `ClientObjects.ClientObject.DispatchAll` | internal/daemonclient/client.go:148-166 | after the close the dispatch loop hands over all of the queue in order and ends |
| `ServerRuns.OneResponse` | internal/daemon/server.go:299-367 | a started request has no response while its handler is at work; afterwards it has exactly one, with its own id: the returned text, or the error code for an unknown method, bad params, a failure, a panic of the handler or of the encoder; and none exactly if the result cannot be encoded |
| `ServerRuns.AtMostOneResponse` | internal/daemon/server.go:267-367 | no line ever has two responses, also when the encoder panics and the recovery sends again |
| `ServerRuns.UnencodableGetsNoReply` | internal/jsonrpc/jsonrpc.go:85-91 | for every handler and input with a result that cannot be encoded, a run in which the handler is over and its caller has no reply |
| `ServerRuns.NotificationsSilent` | internal/daemon/server.go:296-298 | a well-formed notification is never answered (section 4.1 of the JSON-RPC 2.0 specification) |
| `ServerRuns.BadLinesAnswered` | internal/daemon/server.go:288-295 | every line read that does not parse is answered once with a null id and -32700, every message of another version or without a method once with its id and -32600 (section 5.1 of the JSON-RPC 2.0 specification) |
| `ServerRuns.FlightsBounded` | internal/daemon/server.go:272-309 | at most 32 started handlers are in flight on a connection |
| `ServerRuns.HandlerEnds` | internal/daemon/server.go:299-367 | a handler under way goes on whatever the reader and other handlers do: each of its own steps brings it nearer to its end, which comes after at most six, and then its request is settled |
| `ServerRuns.RequestStarts` | internal/daemon/server.go:267-311 | the reader takes up every request: it waits for a slot, leaves only when it gets one or the context ends, and gets one while fewer than 32 handlers are under way |
| `ServerRuns.StopAfterReply` | internal/daemon/server.go:327-331 | the server is told to stop exactly when a shutdown request has had its response and its handler has ended |
| `ServerRuns.RunKeeps` | internal/daemon/server.go:267-367 | in every run each response answers its own line with its id, at most one per line, handlers under way will send what is due to their caller, and whatever is owed a response has had one |
| `DrainRuns.DrainedMeansIdle` | internal/daemon/server.go:154-164 | once `done` is closed no handler is running, every connection is over, the connection map is empty and accept has ended |
| `DrainRuns.NothingStartsAgain` | internal/daemon/server.go:154-164 | after that no continuation of the run changes anything: no connection and no handler can start |
| `DrainRuns.GroupsExact` | internal/daemon/server.go:210-311 | in every run the wait groups are at zero exactly when no counted connection, and no running or promised handler, is left |
| `DrainRuns.DrainCompletes` | internal/daemon/server.go:158-164 | when connections and handlers have ended, two steps of the drain goroutine close `done` |
| `DrainRuns.DrainReachable` | internal/daemon/server.go:91-164 | from every state of every run the drain can be completed |
| `DrainRuns.ConnsAllOver` | internal/daemon/server.go:210-253 | with accept ended, a connection group at zero means every connection is over |
| `DrainRuns.NothingAcceptedAfterClose` | internal/daemon/server.go:115-164 | once the listener is closed and no accepted connection is in hand, no continuation of the run adds a connection |
| `DaemonRuns.DrainedMeansAnswered` | internal/daemon/server.go:154-164 | once `done` is closed every request any connection ever started has the one response due to it, with its own id, or none if its result cannot be encoded |
| `DaemonRuns.SilentOnceDrained` | internal/daemon/server.go:154-164 | after that no step of any goroutine starts or answers anything on any connection |
| `DaemonRuns.ReadsOnlyInLoop` | internal/daemon/server.go:255-311 | in every run a connection reads and starts requests only while its loop runs |
| `DaemonRuns.DrainReachable` | internal/daemon/server.go:154-367 | no state of the daemon is a dead end: whatever its connections, readers and handlers are doing, it can still be drained, with every request it has started settled |
| `DaemonRuns.RunKeeps` | internal/daemon/server.go:210-311 | in every run of accept loop, connections, handlers and drain together, each started request has its one handler, which is in the wait group exactly until its slot is given back, and a connection's loop is over only after its reader |
| `ServiceRuns.EveryCallReturnsItsOwn` | internal/daemonclient/client.go:68-112 | with any number of clients and connections, while the daemon serves or drains, a call that returns a response returns the only response made to its own request on its own connection, with the body that the handler's outcome for that call's method and params calls for |
| `ServiceRuns.DrainedLeavesNoneOwed` | internal/daemon/server.go:154-164 | once `done` is closed every request started on any connection is that of exactly one call of the client there and has the one response due to it, or none if its result cannot be encoded |
| `ServiceProgress.CallCanStillReturn` | internal/daemon/server.go:267-367 | no state of any run is a dead end for a waiting call: while its connection's loop runs, both ends read and the handler's results can be encoded, the call can still return with a response, whatever the daemon and the other clients are doing and however full the slots, the wire and the channels are |
| `ServiceProgress.NewCallCanSucceed` | internal/daemonclient/client.go:68-112 | from every state of every run in which the accept loop runs a new client can connect, and its call of any registered method return any text the method's handler returns |
| `ServiceProgress.ClientCanConnect` | internal/daemon/server.go:210-253 | while the accept loop runs one more client can connect and its connection's loop run |
| `ServiceRuns.RunKeeps` | internal/daemon/server.go:210-311 | in every run of the daemon with a client on every connection the daemon's invariant holds, and that of each connection with both its ends |
| `InstanceRuns.AtMostOneListener` | internal/daemon/server.go:76-113 | in every run of daemons and probers, with crashes anywhere, at most one process is listening, and it holds the lock |
| `InstanceRuns.ServingOwnsFiles` | internal/daemon/server.go:87-112 | while a daemon serves, the PID file holds its pid and the socket at the path is the one it listens on |
| `InstanceRuns.LiveFilesSafe` | internal/daemon/lock.go:16-70 | while a process holds the lock, no step of any other process, prober, daemon or crash, changes the socket or the PID file |
| `InstanceRuns.CleanupFindsDeadSocket` | internal/daemon/lock.go:51-70 | when cleanup dials or removes a socket, nobody is listening: the dial cannot succeed and what goes is dead |
| `InstanceRuns.PidNamesHolder` | internal/daemon/lock.go:24-33 | in a run without crashes or failed removals a PID file present names the lock holder |
| `InstanceRuns.ProbeReports` | internal/daemon/lock.go:16-33 | a prober that finds the lock taken reports the PID file as it is when it reads it, whatever others do before: the pid of the daemon that serves then, if one does |
| `InstanceRuns.ProbeReportsExactly` | internal/daemon/lock.go:16-49 | a prober that can try the lock comes to report exactly when the lock is held as it tries, under every interleaving |
| `InstanceRuns.NewProbeReports` | internal/daemon/lock.go:16-33 | from any state in which the lock is held a new prober reports what the PID file holds |
| `InstanceRuns.SecondDaemonExits` | internal/daemon/server.go:76-86 | a daemon that finds the lock taken exits and leaves lock, socket and PID file as they are |
| `InstanceRuns.PidNamesHolderExactly` | internal/daemon/server.go:87-111 | in every run from no PID file, with crashes and failed removals anywhere, a PID file present names the lock holder if and only if the process it names has neither crashed nor exited |
| `InstanceRuns.StalePidAfterCrash` | internal/daemon/server.go:87-111 | a run with a crash in which the new lock holder differs from the pid in the file, so the condition of PidNamesHolderExactly is needed |
| `InstanceRuns.RestartSucceeds` | internal/daemon/server.go:76-113 | from any reachable state with the lock free, leftovers never keep a daemon whose own calls succeed from serving, whatever other processes do between its steps |
| `InstanceRuns.NewDaemonServes` | internal/daemon/server.go:76-113 | from any state in which the lock is free a new daemon whose calls succeed comes to serve, whatever other processes do between its steps |
| `InstanceRuns.OrderlyExit` | internal/daemon/server.go:91-113 | a daemon that stops in order has taken its socket and PID file with it at the moment it frees the lock, whatever other processes do between its steps |
| `InstanceRuns.RemovalIsRetried` | internal/daemon/server.go:91-113 | also when the removal of the socket with the listener failed, the removal deferred for it has taken the socket away by the moment the lock goes free |
| `InstanceRuns.FailedStartLeavesNoSocket` | internal/daemon/server.go:91-111 | a daemon that fails after it listens has taken its socket with it and left the PID file alone at the moment it frees the lock, whatever other processes do between its steps |
| `InstanceRuns.EveryProcessEnds` | internal/daemon/lock.go:16-88 | no daemon or prober is ever stuck: whatever its calls come to and the others do, it is over after at most thirteen of its own steps and does not hold the lock then |
| `InstanceRuns.FailedStartNeverServes` | internal/daemon/server.go:87-111 | a daemon with a call that fails on its way to serving, the dial of an old socket aside, never serves, whatever comes after |
| `InstanceRuns.FailedCallChangesNoFile` | internal/daemon/lock.go:51-70 | a call that fails leaves socket and PID file as they are, whichever process makes it, and a process that fails before it has the lock is gone |
| `InstanceRuns.FailedProbeLeavesFiles` | internal/daemon/lock.go:51-70 | a prober that fails to look at the socket, or to remove it or the PID file, cleans no further and frees the lock with the files as they were, whatever others do meanwhile |
| `InstanceRuns.ProbeCleans` | internal/daemon/lock.go:16-70 | a probe that finds the lock free has removed a stale socket and the PID file at the moment it frees the lock, whatever other processes do between its steps |
| `InstanceRuns.SeesItselfAlone` | internal/daemon/lock.go:72-88 | under every interleaving a process that gets the lock sees the files and itself as if it ran alone, until it gives the lock up |
| `InstanceRuns.RunKeeps` | internal/daemon/lock.go:72-88 | in every run exactly the lock's holder is inside the locked region, and each process's view of the files is right |
| `CallGraph.Fold` | internal/flamegraph/fold.go:37-88 | for every report the stack machine emits exactly the post-order self times of the call forest of its lines |
| `CallGraph.PushLine` | internal/flamegraph/fold.go:79-82 | one frame line keeps the stack's indents strictly increasing and the final output unchanged |
| `CallGraph.Unwind` | internal/flamegraph/fold.go:84-86 | emptying the stack emits what the machine has left to emit |
| `CallGraph.RunIsSelfTimes` | internal/flamegraph/fold.go:49-86 | the machine's run equals the recursive self-time traversal of the forest |
| `CallGraph.ParentCharacterized` | internal/flamegraph/fold.go:79-81 | a line's parent is the nearest earlier line of smaller indent, and that determines it |
| `CallGraph.ForestIsParentRelation` | internal/flamegraph/fold.go:79-82 | the forest holds every line once, in input order, each below its parent |
| `CallGraph.BalancedIsWellWeighted` | internal/flamegraph/fold.go:49-58 | no line is outweighed by its children exactly when no node of the forest is |
| `CallGraph.FoldedTotal` | internal/flamegraph/fold.go:49-58 | the emitted total is at least the sum of the root counts, with equality exactly when no line is outweighed |
| `FlameTrie.BuildTrie` | internal/flamegraph/render.go:41-51 | the building loop makes the tree of the specification |
| `FlameTrie.BuildHolds` | internal/flamegraph/render.go:29-51 | the node at a path exists exactly when a stack passes it, with the sum of the counts of those stacks |
| `FlameTrie.FoldKeepsCounts` | internal/flamegraph/render.go:41-51 | the rebuilt count at every path is at least the input count there, and all are equal exactly when no line is outweighed |
| `FlameTrie.OutweighedIsInflated` | internal/flamegraph/fold.go:49-58 | a report of two lines in which a child outweighs its parent and the rebuilt count differs from the input count |
| `FlameTrie.FoldThenBuild` | internal/flamegraph/fold.go:37-88 | for a balanced report the tree node at each path has the sum of the counts of the lines with that path and is absent exactly when that sum is zero |
| `FlameTrie.RootCount` | internal/flamegraph/render.go:41-51 | the root carries the total of the top-level lines |
| `FlameLayout.RenderRow` | internal/flamegraph/render.go:73-86 | drawing appends the rectangles of the specification, from the parent's left edge on |
| `FlameLayout.RenderChildren` | internal/flamegraph/render.go:74-85 | the loop over sorted children places each after the shares of the ones before it |
| `FlameLayout.SortedChildrenOrdered` | internal/flamegraph/render.go:101-110 | a child with more samples comes before one with fewer, and of two with equal samples the one whose name is smaller in the order of bytes |
| `FlameLayout.SortedChildrenKeep` | internal/flamegraph/render.go:101-110 | sorting keeps every child once, and the sum of their counts |
| `FlameLayout.BuildWellFormed` | internal/flamegraph/render.go:29-51 | in every built tree the children listed are the children stored, once each, and together they never outweigh their parent |
| `FlameLayout.PlacedPair` | internal/flamegraph/render.go:73-86 | of two placed frames one lies above the other and spans it, or they do not overlap |
| `FlameCanvas.RenderSVG` | internal/flamegraph/render.go:41-69 | the frames and canvas height of the picture are those of the specification |
| `FlameCanvas.FramesNest` | internal/flamegraph/render.go:73-86 | in every picture each frame lies within its ancestors and within the drawing width, and unrelated frames never overlap |
| `FlameCanvas.SiblingsInOrder` | internal/flamegraph/render.go:73-110 | in every picture, of two frames of one parent the one with more samples, or with equal samples the smaller name, ends at or before the other begins |
| `FlameCanvas.RowsLeaveNoGap` | internal/flamegraph/render.go:73-86 | the frames of a row leave no gap: each begins at the drawing's left edge, at its parent's, or where a sibling ends |
| `FlameCanvas.RowOfFrame` | internal/flamegraph/render.go:56-86 | the canvas is 16 times the most frames not named "root" in a stack plus 40 high, a frame's row is that of its depth from the bottom, and it is drawn exactly when it is at least 0.4 wide |
| `FlameCanvas.RowsOnCanvas` | internal/flamegraph/render.go:56-66 | every row, of a drawn frame or of one too thin to draw, falls on the canvas exactly when the longest stack has at most one frame more than the most frames not named "root" in a stack |
| `FlameCanvas.FrameOnCanvas` | internal/flamegraph/render.go:56-86 | a frame is on the canvas exactly when its depth is at most one more than the most frames not named "root" in a stack |
| `FlameCanvas.PlainRowsOnCanvas` | internal/flamegraph/render.go:112-123 | without frames named "root" every row is on the canvas |
| `FlameCanvas.NestedRootsOffCanvas` | internal/flamegraph/render.go:112-123 | two frames named "root" in one stack fall off the canvas |
| `FlameCanvas.FrameShowsCount` | internal/flamegraph/render.go:73-86 | a frame shows the inclusive count at its path, at a width that is to 1176 as its count is to all samples |
| `FlameCanvas.PictureShowsCallGraph` | internal/flamegraph/render.go:41-86 | for a balanced report the frames drawn are exactly the paths with samples, each with its input count and a width that is to 1176 as that count is to the total of the top-level lines |
| `FlameCanvas.PictureIgnoresOrder` | internal/flamegraph/render.go:41-69 | the picture depends only on the multiset of folded stacks, whatever their counts |
| `CacheRuns.CloseDrains` | internal/cache/async_writer.go:55-95 | under every schedule, when Close can return each write made before it has been Put exactly once, Completed + Failed is their number, Bytes the total of the successful ones, and Queued the number that went through the queue |
| `CacheRuns.NeverDropsExactly` | internal/cache/async_writer.go:31-51 | Close never returns before such a write is Put exactly when there is a worker or no queue |
| `CacheRuns.NoWorkersDropWrites` | internal/cache/async_writer.go:68-95 | with a queue and no workers, a run in which Close returns and a write is never Put |
| `CacheRuns.CloseReachable` | internal/cache/async_writer.go:55-95 | from every state of every run Close can come to its return, whatever the queue size and the number of workers |
| `CacheRuns.RunKeeps` | internal/cache/async_writer.go:31-95 | in every run the four counters are the sums over the writes, no write is Put twice, and queue, workers and writes agree |
| `CacheRuns.StoreOfRun` | internal/cache/async_writer.go:55-84 | in every run a key holds the data of a write that stored it, or its first value if none did |
| `CacheRuns.DrainedStore` | internal/cache/async_writer.go:55-84 | when equal keys carry equal data and every write is stored, the store is the map built by doing the writes one after another |
| `CacheRuns.ClosedStore` | internal/cache/async_writer.go:88-95 | that holds once Close can return, no write came after it and Failed is zero |
| `Sharded.HexRoundTrip` | internal/cache/sharded.go:46-49 | reading the hex digits back gives the key |
| `Sharded.PathInjective` | internal/cache/sharded.go:46-49 | different non-empty keys of any length have different paths |
| `Sharded.TempIsNoBlob` | internal/cache/sharded.go:59-63 | no temp file stands where some key's blob belongs |
| `Sharded.ShardedStore.Put` | internal/cache/sharded.go:53-74 | a Put alone succeeds exactly when no system call fails and the temp name is free; then the store is the old map with that key updated, otherwise the map it was |
| `Sharded.ShardedStore.Get` | internal/cache/sharded.go:77-86 | the blob last stored under the key, a miss exactly when there is none, and an error only when there is one that cannot be read |
| `Sharded.PutRefinesMap` | internal/cache/sharded.go:53-86 | a Put on files that represent a map leaves files that represent the updated map |
| `Sharded.ReadsOwnBlob` | internal/cache/sharded.go:53-86 | after any history of Puts a key reads what was last stored under it, never another key's blob |
| `BlobRuns.RunKeeps` | internal/cache/sharded.go:53-74 | in every run the temp names in use are pairwise distinct, each temp file holds the first bytes of its own job's data and all of them before the rename, and the files represent the writer's map |
| `BlobRuns.OnlyRenameShows` | internal/cache/sharded.go:53-74 | at any moment of any run a key's blob changes only by a successful rename of a job for that key, and then to all of that job's data |
| `BlobRuns.GetSeesWholeBlob` | internal/cache/sharded.go:77-86 | a Get at any moment sees all of the data of a write of that key that has been stored, or, if there is none, what the key held at first |
| `BlobRuns.WriterRuns` | internal/cache/async_writer.go:31-84 | the writer inside such a run goes through a run of its own, so that what is proved of its runs holds here |
| `BlobRuns.PutStores` | internal/cache/sharded.go:53-74 | a Put whose own calls succeed stores its blob at its rename, whatever the writer and the other Puts do between its calls, after at most four calls and one for each byte |
| `BlobRuns.FailedPutCleansUp` | internal/cache/sharded.go:59-74 | a Put whose write or close fails stores nothing and returns with an error, and once it has removed its temp file that is no longer in the tree, whatever the rest does in between |
| `BlobRuns.TempLeftExactly` | internal/cache/sharded.go:59-74 | a Put that returns leaves its temp file behind exactly when its rename failed, or the removal after another failure |
| `BlobRuns.FilesAreStore` | internal/cache/sharded.go:53-74 | under every overlap of Puts by workers, callers and late callers, with failures and short writes at any step, the files represent the writer's map at every moment |
| `BlobRuns.DrainedFiles` | internal/cache/async_writer.go:31-95 | after Close, with consistent keys and no failure, each key's file reads as if the writes had been done one after another, however the Puts overlapped |
| `Ttl.PutUint64` | internal/cache/ttl.go:70-72 | writes eight bytes whose big-endian value is the number and leaves the rest of the buffer alone |
| `Ttl.Uint64` | internal/cache/ttl.go:44 | reads the big-endian value of the first eight bytes |
| `Ttl.MakeBlob` | internal/cache/ttl.go:70-72 | the blob is a header with the expiry followed by the payload |
| `Ttl.FreshUntilExpiry` | internal/cache/ttl.go:41-54 | such a blob reads as its payload strictly before the expiry and as a miss from then on |
| `Ttl.TtlStore.Get` | internal/cache/ttl.go:36-55 | returns what the key's file holds if it is well formed and fresh; a read that fails is a miss |
| `Ttl.TtlStore.Put` | internal/cache/ttl.go:59-78 | succeeds exactly when now + ttl, wrapped to 64 bits, is not negative, the payload fits and the store's Put succeeds; then the key reads as the payload strictly before that time and as a miss from then on, and nothing else changes |
| `Ttl.UnixNanoExact` | internal/cache/ttl.go:63 | the 64-bit expiry is now + ttl exactly when that is within the signed 64-bit range |
| `Ttl.GetIsLastPut` | internal/cache/ttl.go:36-78 | after any history of Puts without a background writer, Get returns exactly the last successful Put's payload strictly before that Put's now + ttl and a miss from then on |
| `Ttl.GetOnlyUnexpired` | internal/cache/ttl.go:36-78 | however the background writer reorders and overlaps its Puts, and at whatever moment the file is read, a payload is read at time t only if some Put of it under that key has now + ttl after t, or it was there and fresh at the start |
| `BinaryMarkers.ScanBinaryMarkers` | internal/detect/detect.go:1193-1244 | for every split of the file into reads the Go and Wails flags are set exactly when their needle occurs in the whole file, and rustHits is the number of occurrences plus the recounted ones, zero exactly when there are none |
| `BinaryMarkers.ScanReads` | internal/detect/detect.go:1216-1242 | the same for any needles short enough and without self-overlap |
| `BinaryMarkers.ScanWindow` | internal/detect/detect.go:1218-1234 | one window finds exactly what the bytes up to its end hold and the bytes before it did not, plus what lies in the carried tail |
| `BinaryMarkers.CountRust` | internal/detect/detect.go:1221-1223 | the counting loop finds every occurrence of every needle in a window |
| `BinaryMarkers.CountCountsAll` | internal/detect/detect.go:1221-1223 | a non-overlapping count finds every occurrence of a needle that does not overlap itself |
| `BinaryMarkers.NeedlesSuitable` | internal/detect/detect.go:1200-1211 | the needles of the source are non-empty, at most as long as the carried tail and do not overlap themselves |
| `BinaryMarkers.NothingToRecount` | internal/detect/detect.go:1230-1234 | without occurrences nothing is recounted |
| `Anomaly.DetectOne` | internal/anomaly/anomaly.go:56-81 | a series, sorted by time with ties in any order, is flagged exactly when its latest value is at least the threshold of weighted deviations from the weighted mean of the ones before it, and the finding reports those numbers |
| `Anomaly.Accumulate` | internal/anomaly/anomaly.go:63-70 | the loop computes the recurrence over all points but the latest |
| `Anomaly.EwmaIsWeighted` | internal/anomaly/anomaly.go:63-70 | the recurrence gives exactly the exponentially weighted mean, with weights that add up to one, and the weighted variance about it |
| `Anomaly.MeanWithinExtremes` | internal/anomaly/anomaly.go:63-70 | the mean lies between the baseline's extremes |
| `Anomaly.VarianceZeroIffFlat` | internal/anomaly/anomaly.go:63-74 | the variance is never negative and zero exactly when all baseline values are equal |
| `Anomaly.VerdictInvariant` | internal/anomaly/anomaly.go:56-81 | scaling the values of a series by any non-zero factor and shifting them changes no verdict: points in the same order by time are judged alike, and the verdicts that ties allow are the same |
| `GcLog.Parse` | internal/gclog/gclog.go:133-149 | the loop computes the summary of the specification |
| `GcLog.Merge` | internal/gclog/gclog.go:99-129 | merging computes the combined summary, whatever order the maps are walked in |
| `GcLog.AddCauses` | internal/gclog/gclog.go:110-115 | the loop adds one map of counts to another, whatever the order |
| `GcLog.ParseIsHomomorphism` | internal/gclog/gclog.go:99-149 | the parse of a concatenation is the merge of the parses in every field, the longest pause under ties included |
| `GcLog.MergeAssociative` | internal/gclog/gclog.go:99-129 | merging is associative on all summaries |
| `GcLog.RightUnit` | internal/gclog/gclog.go:99-129 | the empty summary is a right unit exactly for summaries with a computed average and no negative maximum |
| `GcLog.LeftUnit` | internal/gclog/gclog.go:99-129 | it is a left unit exactly when, besides, no longest pause is recorded with a maximum of zero |
| `GcLog.UnitsFail` | internal/gclog/gclog.go:99-129 | three summaries for which the empty one is no unit on one side or both |
| `GcLog.ParsedUnits` | internal/gclog/gclog.go:99-149 | it is a unit on both sides for every parsed summary |
| `GcLog.CountersCount` | internal/gclog/gclog.go:151-177 | every counter is the number of pauses it is named for (kind Full, kind Young or Mixed, System.gc in the cause, evacuation failure or to-space exhaustion in the line), per cause included; the total is the sum of durations and the average their mean |
| `GcLog.LongestIsFirst` | internal/gclog/gclog.go:151-158 | the longest pause is the first of the greatest positive duration, absent exactly when there is none |
| `GcLog.LinesRoundTrip` | internal/gclog/gclog.go:133-149 | the scanner gives back the lines of a text, whether each ends in a newline or a carriage return and a newline, with or without a last unended line |
| `GcLog.ParseFileTail` | internal/gclog/gclog.go:71-95 | parses the lines after the first newline at or after the seek position; errors exactly when opening or stat fails, or the seek that only a longer file needs |
| `GcLog.TailStartExactly` | internal/gclog/gclog.go:71-95 | parsing starts at the beginning of a log that is short enough or has no limit, and otherwise after the first newline at or after the last maxBytes bytes begin, or not at all if there is none |
| `GcLog.TailCompletes` | internal/gclog/gclog.go:71-95 | merging the tail's parse after the parse of the skipped part gives the parse of the whole log |
| `Asar.Walk` | internal/asar/asar.go:103-119 | walking visits each file node exactly once with its path, in any map order |
| `Asar.ParseHeader` | internal/asar/asar.go:92-101 | the list is sorted by path and has one entry for each file node, equal entries as often as they occur; its paths are distinct exactly when no two file nodes have the same pieces |
| `Ordering.LessExactly` | internal/asar/asar.go:99 | the order in which paths and names are sorted is that of the first character in which two differ, the end of a string coming before any character |
| `Asar.SamePath` | internal/asar/asar.go:103-112 | two addresses have one path exactly when, leading empty names aside, their names split at slashes give the same pieces |
| `Asar.PathInjective` | internal/asar/asar.go:103-112 | for non-empty slash-free names different nodes have different paths |
| `Asar.InventoryUnique` | internal/asar/asar.go:92-119 | the list does not depend on the order the maps were walked in |
| `Asar.InventoryBijection` | internal/asar/asar.go:92-119 | in a header without two nodes of the same pieces, file nodes and entries correspond one to one, each entry with the path, size, hash and unpacked flag of its node |
| `Asar.SlashCollides` | internal/asar/asar.go:103-112 | with a slash in a name two file nodes can share a path |
| `Asar.EmptyNameCollides` | internal/asar/asar.go:103-112 | without any slash, below an empty name at the top two file nodes can share a path |
| `AsarDiff.IndexByPath` | internal/asar/asar.go:170-176 | builds the index in which the last entry of a path wins |
| `AsarDiff.IndexAt` | internal/asar/asar.go:170-176 | the index holds exactly the paths that occur, each with the last entry that has it |
| `AsarDiff.DiffArchives` | internal/asar/asar.go:136-159 | the three lists hold exactly the new entries, the gone ones and those that differ in their hashes, or in size where one has no hash, each strictly sorted by path |
| `AsarDiff.ApplyDiff` | internal/asar/asar.go:136-168 | applying the diff to the old archive gives the new one's paths, with the old entry kept only where the two have equal hashes, or equal sizes where one has none |
| `AsarDiff.EmptyDiff` | internal/asar/asar.go:129-168 | the diff is empty exactly when the paths agree and no entry is judged changed |
| `AtomicFile.Volume.WriteAtomic` | internal/fsutil/atomic.go:50-91 | succeeds exactly when no system call fails; every state on the way, and every crash in one of them, shows the old file or the complete new one; nothing else changes but at most a stray temp file |
| `AtomicFile.Volume.Write` | internal/fsutil/atomic.go:21-26 | whatever the pieces the bytes arrive in, no state of the write touches the target |
| `AtomicFile.Volume.Prepare` | internal/fsutil/atomic.go:54-80 | up to the rename the target is untouched and the temp file is complete and flushed |
| `AtomicFile.TempIsNotTarget` | internal/fsutil/atomic.go:54 | a temp name is never the target's own, even when the target does not exist |
| `AtomicFile.Renamed` | internal/fsutil/atomic.go:85-90 | renaming a flushed temp file shows the complete new content at once |
| `AtomicFile.CrashKeepsSettled` | internal/fsutil/atomic.go:73-90 | a crash at any later step leaves a flushed file as it was when its name was last written |
| `AtomicFile.FlushDecides` | internal/fsutil/atomic.go:67-90 | with the flush before the rename every crash after it shows the new bytes, without the flush one can leave any bytes at all |
| `ManifestRuns.NoAppendLost` | internal/artifact/json_store.go:28-84 | in every interleaving the manifest is the records the file decoded to at the start, none where there was no file or an empty one, followed by the committed ones in order, and the committed calls are exactly the successful appends, each once and with its own record |
| `ManifestRuns.CrashLeavesPrefix` | internal/artifact/json_store.go:28-84 | a crash at any step leaves a prefix of the appended sequence, and all committed records when only the process died |
| `ManifestRuns.MalformedStays` | internal/artifact/json_store.go:53-69 | a manifest of bytes that do not decode is never overwritten and no append on it succeeds |
| `ManifestRuns.ListReturnsPrefix` | internal/artifact/json_store.go:44-51 | what a List returns is the manifest as it was at some point of the run |
| `ManifestRuns.ListSeesAppends` | internal/artifact/json_store.go:28-51 | a List that begins after any point of the run returns all records committed by then, in order, those of every Append that had succeeded among them |
| `ManifestRuns.CallsGoOn` | internal/artifact/json_store.go:28-84 | a call whose own system calls succeed goes on whatever the others do: it never fails on a manifest that decodes, is missing or is empty, and when an Append is done its record is committed |
| `ManifestRuns.AppendCanSucceed` | internal/artifact/json_store.go:28-84 | from every state of every run on a manifest that can be read, whatever the calls under way are doing, one more Append can be made and succeed, and its record is then in the manifest |
| `ManifestRuns.LockComesFree` | internal/artifact/json_store.go:28-84 | whatever a call inside the lock is doing, and whatever of it fails, it can leave, with the manifest as it was |
| `ManifestRuns.CancelledFails` | internal/artifact/json_store.go:28-51 | a call whose context has ended before it takes the lock fails for good and commits nothing |
| `ManifestRuns.RunKeeps` | internal/artifact/json_store.go:28-84 | in every run one call is inside the lock, every state of the disk shows the manifest after some number of commits, and temp files hold what was written so far |
| `Manifest.JsonStore.Append` | internal/artifact/json_store.go:28-41 | succeeds exactly when not cancelled, the file can be read, is missing, empty or decodes, and no write fails; then the record is the last of those appended and nothing else changed, otherwise the file is as it was; no state between shows anything else |
| `Manifest.JsonStore.List` | internal/artifact/json_store.go:44-51 | the records the file decoded to at the start, none where it was missing or empty, followed by those of all appends that have succeeded, in order, or an error |
| `Manifest.FirstAppend` | internal/artifact/json_store.go:28-69 | where there is no manifest or an empty file the first Append succeeds, and List then gives that record alone |

## Left out

- `cmd/`, `ci/`, printing, flags and the service installers: process plumbing.
- `internal/dbinspect`, `internal/dbcheck`, `internal/captiveportal`, `internal/crashready`: thin wrappers over drivers, HTTP or sysctl.
- The rest of `internal/detect`, `internal/fleet`, `internal/diff`, `internal/cachetriage`, `internal/appinspect`, `internal/electronfuse`, `internal/crashreport`: classification tables, field-by-field comparisons and report formatting, where the code is its own statement.
- JSON coding, newline framing, peer credentials, hashing, the regular expressions that read one GC or call-graph line, and SVG text are parameters or absent; the asar container around the header is absent.
- Goroutines and processes are step functions on state values, not classes with threads: sharing of Go objects between goroutines is captured only by the shared fields of the state.
- Tree nodes of the flamegraph are values, not heap objects; a frame too thin to draw stays in the list with its `visible` flag off; below a node of count zero, where the source divides zero by zero, widths are taken as zero (counts that `Fold` emits are positive).
- Anomaly.DetectOne: an empty series with a negative `minSamples`, for which the source panics, is excluded. The final sort of `Detect` by score is absent.
- A `Write` racing `Close` of the background writer is outside the model, as the closed check and the send are not one step; late writes after Close are modelled.
- InstanceRuns.PidNamesHolderExactly: starts without a PID file, because a file from before may hold any number; a PID file with malformed text, and actors that ignore the lock, are absent. Processes are numbered once and for all: that the system gives a dead process's number to another is absent.
- The five-second limit on the drain is absent: the claims are about the moment `done` is closed.
- The scanner's line limit, and 64-bit wrap-around of counters and ids, are absent.
- `IsUnavailable`, `CheckVersion` and the decoding of a result into the caller's variable in `internal/daemonclient` are absent.
- Sharded.ShardedStore.Put: one Put at a time; Puts that overlap are steps over shared files in `BlobCache`. The empty key, for which the source panics, is excluded.
- A Get reads its file in one step: a file that is open keeps its bytes when another is renamed over its path, and no Put writes to a file after its rename.
- The two writes of a response line, body and newline, are one step; a write that fails is a lost reply. In `Daemon` taking a slot, counting the handler and starting it are one step, and so are giving the slot back and leaving the wait group; when a reader ends is free, whether by hang-up, by the closing of connections or by the end of the context.
- ClientObjects.ClientObject.Call: the steps of other goroutines between its own are given as events; a call that has nothing to take yet returns None, and `Wait` resumes it.
- AtomicFile.Volume.WriteAtomic: the crash claim needs the old file's bytes to have reached the disk before, since a crash could lose them otherwise.
