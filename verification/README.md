# DeepSeer, verified core

A Dafny model of the stateful core of DeepSeer, an event-driven intercepting proxy with an
asynchronous classifier attached: the two wake-up protocols, the chunked byte buffer and the
connection on top of it, the reference-counted certificate cache, request forwarding and TLS
interception, the HTTP/1.1 and weight-file codecs, log rotation and layer normalisation.
Check everything with `dafny verify dfyconfig.toml`.

| file | what it models | main result |
|---|---|---|
| `Wrappers.dfy` | optional values | used by the others |
| `Engine.dfy` | the work queue of the classifier engine, as a step system over single lock, unlock, test, push, pop and notify operations | no lost wake-up, every call delivered exactly once and in order, drained on shutdown, draining terminates |
| `WakePipe.dfy` | `post`/`stop` through a bounded pipe, as a step system | no lost post or stop, first-in first-out, every post is served |
| `KqueueLoop.dfy` | event registrations against the kernel's filter set | a removal leaves no filter behind, even after refused registrations |
| `Layout.dfy` | how the slices of a buffer evolve, on values | over whole runs the slices hold a byte queue, and compaction is paid for by what it erases |
| `Buffer.dfy` | slices and buffers on the heap | every operation, and every run, lays the slices out as `Layout.dfy` says |
| `Connection.dfy` | the calls a flush makes to the socket; buffered writes, reads, registration and close | stream conservation and interest agreement over whole runs; why a flush stops |
| `CertCache.dfy` | list, map of iterators and reference counts | refinement of an LRU list, the least recently named hostname goes, the reference ledger over whole lives, LRU inclusion |
| `Tls.dfy` | the handshake state machine | exactly the callback of what OpenSSL decided, once |
| `Interception.dfy` | the nested handshakes of an intercepted tunnel | each SSL context is released at most once; exactly when a close keeps it for ever |
| `ProxySession.dfy` | requests and body chunks racing with the upstream connect | head then body, in order and once |
| `HeaderMap.dfy` | the case-insensitive ordered header map | map laws, and rebuilding a map from its iteration |
| `Http1Codec.dfy` | head printing and the fragment-accumulating parser callbacks | print/parse round trip of whole message sequences |
| `WeightFile.dfy` | the DSMG writer script and its C++ reader | round trip, with its exact condition |
| `FileSink.dfy` | the rename chain of log rotation | the files are a suffix of everything written; after failures, still runs of lines in order |
| `LayerNorm.dfy` | one-pass and two-pass layer normalisation over reals | the two variances are equal |

The environment is nondeterministic: sockets accept any prefix or fail, the kernel reports any batch
of events and may refuse registrations, OpenSSL finishes, waits or fails at will, the parser library
cuts spans in any way, log files may fail to open, to be removed or to be renamed, and writes to them
may be short.  Concurrent components are step systems
(`Enabled`, `Apply`, `Legal`, `Exec`): their theorems hold for every sequence of enabled actions.
Objects that the source updates in place are classes; their invariants (`Valid`) carry the property
and every method is proved to keep them, with `Run`, `Log` and similar methods stating the property
for whole runs.

Assumptions taken from the source's own contracts: `submit` and `shutdown` of the engine do not
overlap, since both touch the thread handle and only one of them does so under the lock; the wake
pipe holds at least one byte; a certificate is put into the cache by a caller that holds a reference
to it, and the cache has capacity at least 1 (with capacity 0 the source reads the back of an empty
list); a buffer is not moved onto itself; a body or response event belongs to a request that was
forwarded.

Where the property is conditional, the condition is exact.  A flush empties the buffer unless the
socket refuses or fails the front slice, or there is a gap: an empty live slice with bytes behind it.
A flush stops on an empty slice only if there was a gap when it began, and with a gap it never empties
the buffer, so if the socket keeps accepting it stops there if and only if there was one
(`Connections.Connection.HandleWrite`).  A buffer built only by `add`, commits of at least one byte,
`drain` and `move` never has an empty live slice (`Layouts.CommittedIsSolid`), and a connection that is
only given such buffers never stops that way (`Connections.Run`); reserving without committing and then
moving a buffer in makes a gap (`Connections.Stall`).
A tensor comes back from the weight file if and only if none of its dimensions is zero
(`WeightFile.TensorRoundTrip`): the script drops a zero dimension together with the singletons, and the
reader then expects data that was not written; such a file can load without error and with wrong data
(`WeightFile.EmptyTensorCorrupts`).  The version word is read without a check, so a file cut off inside
it passes as version 1 if the bytes that are there agree (`WeightFile.WrongFilesRejected`).
A session that is closed keeps the upstream SSL context of its interception for ever if and only if the upstream or the client handshake is undecided at that
moment, and the client context if and only if the client handshake is
(`Interception.AbandonedHandshakeKeepsContext`).  The number of rotated log files is bounded by
`maxFiles` if and only if that is at least 1, or nothing was rotated before and the line does not fill
the file (`LogRotation.FileSink.Write`); with `maxFiles` 0, which the header does not mention, one file
is kept.  That the log files are a suffix of everything written needs that no removal or rename of an
existing file failed and no write was short, errors which the source ignores: a stuck file is
overwritten by the next one (`LogRotation.FailedRenameLoses`).  What always holds is that every file
holds consecutive lines, older ones under higher numbers (`LogRotation.Log`).

## Model

| member | source | states |
|---|---|---|
| `Engine.StepKeepsInv` | SeerLib/src/Engine.cpp:11-82 | every atomic step of submitters, workers and the shutdown caller keeps mutual exclusion, the single live worker, conservation of items and the wake-up invariant |
| `Engine.RunKeepsInv` | SeerLib/src/Engine.cpp:11-82 | every state of every interleaving satisfies that invariant |
| `Engine.NoWakeupIsLost` | SeerLib/src/Engine.cpp:26-72 | whenever a worker sleeps on the condition variable with work queued or shutdown requested, some thread has yet to notify; with the mutex free, that thread is between its unlock and its notify |
| `Engine.ExactlyOnceInOrder` | SeerLib/src/Engine.cpp:34-40 | in every state the submitted items are the delivered ones, then the one in flight, then the queue, in order; at most one worker is alive |
| `Engine.CallsAreSubmitted` | SeerLib/src/Engine.cpp:26-41 | in every run the submitted items are those passed to the calls, each entering when its call reaches the queue, in that order |
| `Engine.CallsAreCounted` | SeerLib/src/Engine.cpp:26-41 | the calls made with an item number its occurrences among the submitted ones and the calls still on their way to the queue with it |
| `Engine.EveryCallCounts` | SeerLib/src/Engine.cpp:26-82 | whenever no call is in progress, the calls made with an item number its deliveries, plus one if it is in flight, plus its places in the queue |
| `Engine.ShutdownDrains` | SeerLib/src/Engine.cpp:43-56 | whichever way shutdown returns, after any earlier shutdown and resubmit cycles, everything submitted has been delivered and no worker lives |
| `Engine.ShutdownDeliversCalls` | SeerLib/src/Engine.cpp:26-56 | whichever way shutdown returns, every item has been delivered as often as it was passed to submit |
| `Engine.ShutdownIsInProgress` | SeerLib/src/Engine.cpp:43-56 | a shutdown is in progress exactly from its call to its return |
| `Engine.StepReducesWork` | SeerLib/src/Engine.cpp:26-82 | every step of a call in progress uses up remaining work |
| `Engine.SomeoneCanStep` | SeerLib/src/Engine.cpp:26-82 | no deadlock: unless the engine is at rest some thread can move |
| `Engine.DrainTerminates` | SeerLib/src/Engine.cpp:43-82 | once no further call begins, every schedule stops within a bound that grows by three for each spurious wake-up, with every call returned and every item delivered |
| `WakePipe.StepKeepsInv` | DeepSeerLib/src/Event/KqueueLoop.cpp:84-102 | every step of posters, stoppers, kernel and loop keeps the queue order and the announcement of posts and stops |
| `WakePipe.RunDoesAsTold` | DeepSeerLib/src/Event/KqueueLoop.cpp:84-241 | from any state, a run pushes exactly the callbacks of its posts in order, clears the running flag exactly if it holds a stop, and ends the loop only for that or for a failed kevent, always for the latter |
| `WakePipe.PostsAreKept` | DeepSeerLib/src/Event/KqueueLoop.cpp:209-241 | in every run, dropped wake bytes included, a waiting callback is announced by a byte, a poster about to wake, or the loop past the drain; the callbacks run, those the loop holds and those queued are exactly the posted ones in order; the loop is told to stop exactly by a stop, and returns only after one or a failed kevent |
| `WakePipe.NeverSleepsOnWork` | DeepSeerLib/src/Event/KqueueLoop.cpp:84-102 | blocked in kevent with an empty pipe and no call in progress, the loop has run everything posted and has not been stopped |
| `WakePipe.PostsAreServed` | DeepSeerLib/src/Event/KqueueLoop.cpp:209-232 | once no further call begins, every schedule stops within a bound that grows by one batch for each kevent that is interrupted or reports only other descriptors, with every posted callback run and no stop called, or the loop returned after a stop or a failed kevent |
| `EventLoop.KqueueLoop.Watch` | DeepSeerLib/src/Event/KqueueLoop.cpp:143-169 | replaces the registration; fails exactly if the kernel refused a filter it was asked for, and otherwise the kernel monitors exactly the asked filters; no other descriptor changes |
| `EventLoop.KqueueLoop.Remove` | DeepSeerLib/src/Event/KqueueLoop.cpp:171-188 | no registration and no kernel filter of the descriptor remains |
| `Buffers.Slice.Append` | DeepSeerLib/src/Core/Buffer.cpp:27-38 | writing into the reservation and committing extends the readable bytes |
| `Buffers.Slice.Drain` | DeepSeerLib/src/Core/Buffer.cpp:50-55 | consumes readable bytes from the front |
| `Layouts.FlattenAppend` | DeepSeerLib/src/Core/Buffer.cpp:133-143 | the bytes of consecutive runs of slices concatenate |
| `Layouts.StoredFacts` | DeepSeerLib/src/Core/Buffer.cpp:61-98 | storing slice by slice appends to the whole, keeps the bound on the front index and leaves no new slice empty |
| `Layouts.AddCreatesAtMostOne` | DeepSeerLib/src/Core/Buffer.cpp:61-75 | adding creates at most one slice, and none if the data fit into the last one |
| `Layouts.FillFacts` | DeepSeerLib/src/Core/Buffer.cpp:69-73 | extending the last slice extends the whole |
| `Layouts.ConsumeFlatten` | DeepSeerLib/src/Core/Buffer.cpp:100-115 | consuming chunk by chunk consumes the front of the whole; what is not there remains |
| `Layouts.EatenLive` | DeepSeerLib/src/Core/Buffer.cpp:105-113 | the drain loop, which only advances positions and the front index, is that consumption on the live slices |
| `Layouts.DrainedFacts` | DeepSeerLib/src/Core/Buffer.cpp:100-123 | draining drops the first min(n, length) bytes, restores the bound on the front index, and leaves no live slice empty that was not |
| `Layouts.MovedFacts` | DeepSeerLib/src/Core/Buffer.cpp:145-159 | moving joins the live slices and the contents |
| `Layouts.FillSolid` | DeepSeerLib/src/Core/Buffer.cpp:92-98 | committing at least one byte fills a freshly reserved slice: no live slice is empty |
| `Layouts.CommittedIsSolid` | DeepSeerLib/src/Core/Buffer.cpp:61-159 | a buffer built only by add, commits of at least one byte, drain and move, of such buffers, has no empty live slice |
| `Layouts.GapConsume` | DeepSeerLib/src/Core/Buffer.cpp:105-113 | consuming within a non-empty front slice neither opens nor closes a gap |
| `Layouts.GapFacts` | DeepSeerLib/src/Net/Connection.cpp:155-165 | an empty front slice with bytes behind it is a gap, and a gap means that bytes wait |
| `Layouts.RunIsQueue` | DeepSeerLib/src/Core/Buffer.cpp:61-173 | after any run of add, reserve and commit, drain and move, nested moves included, the slices hold what a plain queue holds and the front index is 0 or below half |
| `Layouts.CompactionIsPaid` | DeepSeerLib/src/Core/Buffer.cpp:100-123 | over any run the slices moved by compactions inside drain are at most those they erase, and those together with the slices left are at most the slices ever created |
| `Layouts.DrainCharge` | DeepSeerLib/src/Core/Buffer.cpp:100-123 | a drain compacts exactly if live slices are left and at least as many were consumed; it then moves the live ones and erases the consumed ones |
| `Buffers.JoinSeparate` | DeepSeerLib/src/Core/Buffer.cpp:149-153 | slices of two separate buffers stay separate when joined |
| `Buffers.Buffer.Add` | DeepSeerLib/src/Core/Buffer.cpp:61-75 | lays the slices out as specified, appends the bytes and leaves no live slice empty that was not |
| `Buffers.Buffer.Reserve` | DeepSeerLib/src/Core/Buffer.cpp:83-90 | provides room without changing the contents; a slice of the hinted or default capacity is added exactly when the last one is full or missing |
| `Buffers.Buffer.Commit` | DeepSeerLib/src/Core/Buffer.cpp:92-98 | appends exactly what was written into the reservation; no live slice is left empty if at least one byte is committed or none was empty before |
| `Buffers.Buffer.Drain` | DeepSeerLib/src/Core/Buffer.cpp:100-123 | the loop and the clean-up on the heap leave the specified layout; the first min(n, length) bytes are gone |
| `Buffers.Buffer.Move` | DeepSeerLib/src/Core/Buffer.cpp:145-159 | joins the live slices and the contents, empties the other buffer |
| `Buffers.Buffer.CompactSlices` | DeepSeerLib/src/Core/Buffer.cpp:167-173 | drops exactly the consumed slices |
| `Buffers.Serve` | DeepSeerLib/src/Core/Buffer.cpp:61-173 | any run on real buffers gives the layout, the contents and the bill of the specification; the bill, counted from the lengths of the vector, is the one CompactionIsPaid bounds |
| `Buffers.Buffer.Linearize` | DeepSeerLib/src/Core/Buffer.cpp:133-143 | returns the contents |
| `Buffers.Buffer.Front` | DeepSeerLib/src/Core/Buffer.cpp:161-165 | the first live slice is a prefix of the contents |
| `Connections.Connection.UpdateEvents` | DeepSeerLib/src/Net/Connection.cpp:85-110 | makes the registration Readable iff reading and Writable iff bytes wait, absent if neither |
| `Connections.Connection.Close` | DeepSeerLib/src/Net/Connection.cpp:74-83 | no registration remains; nothing else changes |
| `Connections.Connection.ReleaseSocket` | DeepSeerLib/include/DeepSeer/Net/Connection.hpp:105-110 | no registration remains |
| `Connections.Connection.StartRead` | DeepSeerLib/src/Net/Connection.cpp:17-25 | switches reading on while open, registration in step |
| `Connections.Connection.StopRead` | DeepSeerLib/src/Net/Connection.cpp:27-35 | switches reading off while open, registration in step |
| `Connections.Connection.Send` | DeepSeerLib/src/Net/Connection.cpp:166-178 | the socket takes any prefix of the offer or fails; every offer and answer is recorded |
| `Connections.Connection.Flush` | DeepSeerLib/src/Net/Connection.cpp:155-181 | conserves the stream and terminates; every send but the last took something; it ends with nothing left, or on an answer of 0 or an error to the front slice it just offered, or on an empty front slice, the latter only if there was a gap, and never flushed if there was one |
| `Connections.Connection.HandleWrite` | DeepSeerLib/src/Net/Connection.cpp:149-185 | the same with registration; closes, and tells the error callback once, exactly when a send fails |
| `Connections.Connection.Write` | DeepSeerLib/src/Net/Connection.cpp:51-63 | while open the bytes join the stream and a flush ends as stated; once closed nothing happens |
| `Connections.Connection.WriteBuffer` | DeepSeerLib/src/Net/Connection.cpp:37-49 | the same for a buffer, which is emptied unless the connection is closed |
| `Connections.Connection.HandleRead` | DeepSeerLib/src/Net/Connection.cpp:112-147 | delivers exactly the bytes received, closes on error and end of stream, and invokes exactly the callback that goes with each, the error one before the connection is closed and the close one after; registration in step whenever control is handed out |
| `Connections.Run` | DeepSeerLib/src/Net/Connection.cpp:37-185 | over any run of both writes, reads, writable events, close and releaseSocket, buffers with gaps included, bytes accepted by the socket followed by bytes still buffered are what was written by the calls up to the first that closes by itself or in which a send fails, in order; on an open connection bytes wait only because the socket took none of the front slice, or behind an empty one, and never the latter if the buffers passed on left no reservation empty |
| `Connections.Stall` | DeepSeerLib/src/Net/Connection.cpp:161-165 | reserving without committing, then moving a non-empty buffer in, makes a write that sends nothing |
| `Sending.EndedIsSettled` | DeepSeerLib/src/Net/Connection.cpp:166-185 | a flush that began unbroken leaves a failed send exactly when it failed, and otherwise bytes wait only on a refusal or a gap |
| `Connections.KernelAgrees` | DeepSeerLib/src/Net/Connection.cpp:85-110 | for an honoured registration the kernel filters are Read iff reading and Write iff bytes wait; none once closed |
| `CertCaches.RunBounded` | DeepSeerLib/src/Tls/CertCache.cpp:31-58 | every reachable cache holds distinct hostnames, at most capacity of them |
| `CertCaches.RunRecent` | DeepSeerLib/src/Tls/CertCache.cpp:17-58 | over any run the entries are in the order in which their hostnames were last named, hits included, and hold the context last put |
| `CertCaches.HitIsLastPut` | DeepSeerLib/src/Tls/CertCache.cpp:17-29 | a hit returns the context last put under the hostname |
| `CertCaches.WhoStays` | DeepSeerLib/src/Tls/CertCache.cpp:17-58 | a hostname leaves exactly if a new one is put into a full cache and it is the one that has gone longest without being named |
| `CertCaches.LruInclusion` | DeepSeerLib/src/Tls/CertCache.cpp:17-58 | after the same operations the smaller cache is a subsequence of the larger with equal contexts, so the larger never misses where the smaller hits |
| `CertCaches.PutIncluded` | DeepSeerLib/src/Tls/CertCache.cpp:31-58 | one put keeps the inclusion, through every combination of update, eviction and insertion |
| `CertCaches.GetIncluded` | DeepSeerLib/src/Tls/CertCache.cpp:17-29 | one get keeps the inclusion, also when only the larger cache hits |
| `CertCaches.LedgerReplace` | DeepSeerLib/src/Tls/CertCache.cpp:38-42 | releasing the old context and holding the new one balances the ledger, and the new one survives even if it is the old one |
| `CertCaches.LedgerEvict` | DeepSeerLib/src/Tls/CertCache.cpp:46-52 | evicting gives back exactly the reference of the evicted entry |
| `CertCaches.CertCache.Get` | DeepSeerLib/src/Tls/CertCache.cpp:17-29 | the heap structure implements lookup with promotion, list and map in agreement |
| `CertCaches.CertCache.Put` | DeepSeerLib/src/Tls/CertCache.cpp:31-58 | the heap structure implements LRU insertion; hostnames agree, size is bounded, each context is counted once per outside holder and entry |
| `CertCaches.CertCache.Destroy` | DeepSeerLib/src/Tls/CertCache.cpp:10-15 | gives back every entry's reference and no other |
| `CertCaches.Replay` | DeepSeerLib/src/Tls/CertCache.cpp:17-58 | over any run of gets, puts and outside holds and releases, the cache holds the specified entries and each context's count is its outside holders plus the entries naming it |
| `CertCaches.Lifetime` | DeepSeerLib/src/Tls/CertCache.cpp:10-58 | after any such run and destruction exactly the outside references remain |
| `Tls.HandshakeExclusive` | DeepSeerLib/src/Tls/TlsConnection.cpp:80-124 | after one startHandshake any run of events invokes at most one of the two callbacks, at most once, and none on a connection closed before |
| `Tls.HandshakeSignals` | DeepSeerLib/src/Tls/TlsConnection.cpp:80-124 | any run of events invokes exactly the callback of the first verdict before a close that is not to wait; the connection is closed after a failure or a close and otherwise only by a failing read or write |
| `Tls.StepsExclusive` | DeepSeerLib/src/Tls/TlsConnection.cpp:159-188 | completion is signalled iff the handshake is done, failure only on a closed connection, through any run |
| `Tls.TlsConnection.ContinueHandshake` | DeepSeerLib/src/Tls/TlsConnection.cpp:88-124 | implements the handshake step: done before the completion callback, closed before the error callback, which is moved out |
| `Tls.TlsConnection.StartHandshake` | DeepSeerLib/src/Tls/TlsConnection.cpp:80-86 | arms the callbacks and takes the first step |
| `Tls.TlsConnection.HandleIoEvent` | DeepSeerLib/src/Tls/TlsConnection.cpp:173-188 | continues an unfinished handshake, otherwise at most closes |
| `Interception.ContextsReleasedOnce` | DeepSeerLib/src/Proxy/ProxySession.cpp:240-353 | in every run each creation reference is given back at most once and only while held, and the client context is cached only while held |
| `Interception.AbandonedHandshakeKeepsContext` | DeepSeerLib/src/Proxy/ProxySession.cpp:49-70 | over every run up to a close and after it: the upstream context is kept for ever iff the close comes while the upstream or the client handshake is undecided, the client context iff it comes while the client handshake is |
| `Interception.RunReachesStage` | DeepSeerLib/src/Proxy/ProxySession.cpp:240-353 | over every run: exactly which context operations happened, in order, from the verdicts alone; the session is closed exactly if the reply failed, a close was asked for, or a handshake or the certificate failed |
| `Interception.ReactKeeps` | DeepSeerLib/src/Proxy/ProxySession.cpp:260-352 | every event keeps the relation between the two handshakes and the contexts held |
| `Interception.Interceptor.OnUpstreamIo` | DeepSeerLib/src/Proxy/ProxySession.cpp:260-352 | the session object takes the specified step; the client connection is taken over only once |
| `Interception.Interceptor.OnClientIo` | DeepSeerLib/src/Proxy/ProxySession.cpp:288-346 | the session object takes the specified step |
| `Interception.Interceptor.constructor` | DeepSeerLib/src/Proxy/ProxySession.cpp:240-262 | starting the interception establishes the specified state |
| `Proxy.ProxySession.WriteToUpstream` | DeepSeerLib/src/Proxy/ProxySession.cpp:517-525 | hands all or nothing over, depending on whether the origin is open; a failing write closes what the source closes |
| `Proxy.ProxySession.ForwardRequest` | DeepSeerLib/src/Proxy/ProxySession.cpp:422-454 | sends the head and then the waiting body |
| `Proxy.ProxySession.OnRequest` | DeepSeerLib/src/Proxy/ProxySession.cpp:102-126 | adds one head to the stream and forwards it at once in an intercepted session |
| `Proxy.ProxySession.OnRequestBody` | DeepSeerLib/src/Proxy/ProxySession.cpp:128-135 | adds the chunk; it waits whole before the connect and is on its way afterwards |
| `Proxy.ProxySession.OnUpstreamConnected` | DeepSeerLib/src/Proxy/ProxySession.cpp:394-408 | unless closed, everything that waited has been handed over in order |
| `Proxy.ProxySession.Close` | DeepSeerLib/src/Proxy/ProxySession.cpp:49-70 | closes every link once, forgets a pending connect |
| `Proxy.ProxySession.OnResponseComplete` | DeepSeerLib/src/Proxy/ProxySession.cpp:177-199 | ends a plain session, keeps an intercepted one |
| `Proxy.Run` | DeepSeerLib/src/Proxy/ProxySession.cpp:102-135 | over any run, what was handed over is a prefix of the bytes the events ask for, all of it while the origin is open and, in a plain session, as long as the session is not closed; none of it is lost while the connect is pending |
| `Proxy.PlainWants` | DeepSeerLib/src/Proxy/ProxySession.cpp:102-135 | a plain session asks for its head and every body chunk, in order, wherever the connect completion falls |
| `Proxy.InterceptedWants` | DeepSeerLib/src/Proxy/ProxySession.cpp:102-135 | an intercepted session asks for every head and body chunk from its first request on, in order |
| `Proxy.ImmediateWants` | DeepSeerLib/src/Proxy/ProxySession.cpp:102-135 | the same for a tunnel whose connect completes at once |
| `HeaderMaps.SameIsEqualFolded` | DeepSeerLib/include/DeepSeer/Http/HeaderMap.hpp:13-21 | keys coincide iff their lower-case forms are equal |
| `HeaderMaps.SameIsAlike` | DeepSeerLib/include/DeepSeer/Http/HeaderMap.hpp:13-21 | keys coincide iff they have the same length and every pair of characters is equal or a capital letter and its small one |
| `HeaderMaps.LessIsLexicographic` | DeepSeerLib/include/DeepSeer/Http/HeaderMap.hpp:13-21 | the comparison is the lexicographic order on lower-cased characters: the first difference decides, a proper prefix comes first |
| `HeaderMaps.LessTransitive` | DeepSeerLib/include/DeepSeer/Http/HeaderMap.hpp:13-21 | the comparison is transitive |
| `HeaderMaps.LessFolded` | DeepSeerLib/include/DeepSeer/Http/HeaderMap.hpp:13-21 | the comparison does not see case |
| `HeaderMaps.GetPut` | DeepSeerLib/include/DeepSeer/Http/HeaderMap.hpp:28-29 | set then get, under any spelling, other keys untouched |
| `HeaderMaps.PutSpelling` | DeepSeerLib/include/DeepSeer/Http/HeaderMap.hpp:28-29 | setting a present key replaces its value and keeps its stored spelling; setting a new one adds it as spelled; every other entry stays |
| `HeaderMaps.GetDrop` | DeepSeerLib/include/DeepSeer/Http/HeaderMap.hpp:42-47 | remove then get, under any spelling, other keys untouched |
| `HeaderMaps.PutAllRebuilds` | DeepSeerLib/include/DeepSeer/Http/HeaderMap.hpp:80-81 | setting the entries in iteration order rebuilds the map |
| `HeaderMaps.HeaderMap.SetHeader` | DeepSeerLib/include/DeepSeer/Http/HeaderMap.hpp:28-29 | the map object keeps its order and obeys the map law |
| `HeaderMaps.HeaderMap.Remove` | DeepSeerLib/include/DeepSeer/Http/HeaderMap.hpp:42-47 | the map object keeps its order and obeys the map law |
| `Http1.HeadRoundTrip` | DeepSeerLib/src/Http/Http1/Codec.cpp:86-116 | a printed head parses by the grammar of RFC 9112 into its own tokens, leaving what follows |
| `Http1.Printed` | DeepSeerLib/src/Http/Http1/Codec.cpp:86-116 | the exact text of a request and of a response |
| `Http1.FeedHead` | DeepSeerLib/src/Http/Http1/Codec.cpp:168-265 | from any parser state, one head delivered in any pieces is passed on exactly |
| `Http1.FeedField` | DeepSeerLib/src/Http/Http1/Codec.cpp:196-216 | one field line in any pieces sets exactly one header |
| `Http1.PrintParseRoundTrip` | DeepSeerLib/src/Http/Http1/Codec.cpp:86-265 | any sequence of well-formed heads, printed, parsed and delivered in any pieces with any bodies in between, comes back the same, nothing leaking between messages |
| `Http1.PrintHead` | DeepSeerLib/src/Http/Http1/Codec.cpp:86-116 | the printing loop appends exactly the printed head |
| `Http1.Http1Codec.FinishCurrent` | DeepSeerLib/src/Http/Http1/Codec.cpp:125-140 | stores and clears the pending header |
| `Http1.Http1Codec.Callback` | DeepSeerLib/src/Http/Http1/Codec.cpp:168-291 | each callback takes the parse state where the specification says |
| `Http1.Http1Codec.Decode` | DeepSeerLib/src/Http/Http1/Codec.cpp:168-291 | a whole sequence of callbacks on the codec object does what the round trip is proved about |
| `Http1.Relay` | DeepSeerLib/src/Http/Http1/Codec.cpp:86-291 | the round trip through the encoders and a codec object that has seen anything before |
| `WeightFile.SqueezeKeepsCount` | tools/extract_magika_weights.py:66-70 | dropping singleton dimensions keeps the element count iff no dimension is zero |
| `WeightFile.SqueezeStores` | tools/extract_magika_weights.py:66-70 | the stored shape holds the dimensions above 1 and no other, or is [1] if there are none |
| `WeightFile.PrintedSizeIsWritten` | tools/extract_magika_weights.py:102-104 | the printed file size is the number of bytes written |
| `WeightFile.U32Bytes` | tools/extract_magika_weights.py:79-100 | a word is written least significant byte first |
| `WeightFile.EmptyFile` | tools/extract_magika_weights.py:79-100 | the exact bytes of the file of no tensors and no labels |
| `WeightFile.TensorRoundTrip` | SeerLib/src/Magika/MagikaModel.cpp:74-95 | a written tensor is read back whole iff no dimension is zero |
| `WeightFile.EmptyTensorMisread` | SeerLib/src/Magika/MagikaModel.cpp:74-95 | a tensor of shape [0] swallows the word behind it |
| `WeightFile.EmptyTensorCorrupts` | SeerLib/src/Magika/MagikaModel.cpp:44-142 | a file with one such tensor and no labels loads without error and with a word of data that was never written |
| `WeightFile.FileRoundTrip` | SeerLib/src/Magika/MagikaModel.cpp:44-142 | reading a written file yields the labels in order and the last data per required name, failing only if a required name is missing |
| `WeightFile.WeightsComeBack` | SeerLib/src/Magika/MagikaModel.cpp:107-141 | with distinct names every required tensor comes back with its own data |
| `WeightFile.WrongFilesRejected` | SeerLib/src/Magika/MagikaModel.cpp:51-61 | a file is rejected for its magic iff it does not begin with it, and for its version iff it does and what follows is not a non-empty beginning of the bytes 1, 0, 0, 0 or all four |
| `WeightFile.ShortVersionAccepted` | SeerLib/src/Magika/MagikaModel.cpp:57-61 | a file of five bytes, cut off within its version word, passes as version 1 |
| `WeightFile.MissingTensorsRejected` | SeerLib/src/Magika/MagikaModel.cpp:74-77 | a file that announces tensors and ends there is rejected |
| `WeightFile.TruncatedDataRejected` | SeerLib/src/Magika/MagikaModel.cpp:91-92 | a tensor cut off within its data is rejected |
| `WeightFile.CountWraps` | SeerLib/src/Magika/MagikaModel.cpp:87-89 | the element count is computed modulo 2^64 |
| `WeightFile.WriteTensor` | tools/extract_magika_weights.py:86-93 | the writing loop produces the tensor's bytes, or fails iff a field overflows 32 bits |
| `WeightFile.WriteFile` | tools/extract_magika_weights.py:79-100 | the script produces the specified file, or fails iff a field overflows 32 bits |
| `WeightFile.LoadTensor` | SeerLib/src/Magika/MagikaModel.cpp:74-94 | one round of the reading loop computes the specified tensor, unchecked short reads included |
| `WeightFile.LoadTensors` | SeerLib/src/Magika/MagikaModel.cpp:74-95 | the tensor loop computes the specified tensors or stops at the first error |
| `WeightFile.LoadFile` | SeerLib/src/Magika/MagikaModel.cpp:44-142 | the reader computes the specified result, error cases included |
| `LogRotation.OldestFirstSplit` | DeepSeerLib/src/Log/FileSink.cpp:62-72 | dropping the oldest files drops a prefix of the lines |
| `LogRotation.RotateKeepsOrder` | DeepSeerLib/src/Log/FileSink.cpp:52-78 | rotation moves file boundaries without touching the sequence of lines |
| `LogRotation.ShiftAllMoves` | DeepSeerLib/src/Log/FileSink.cpp:67-72 | without failures the rename chain moves every rotated file up by one and touches nothing else |
| `LogRotation.RotationStores` | DeepSeerLib/src/Log/FileSink.cpp:52-78 | without failures the active file becomes the newest rotated one and the oldest beyond the limit goes |
| `LogRotation.RenameOrdered` | DeepSeerLib/src/Log/FileSink.cpp:67-75 | each rename of the chain, whatever happened to the others, keeps older lines under higher numbers |
| `LogRotation.FailedRenameLoses` | DeepSeerLib/src/Log/FileSink.cpp:67-75 | a failed rename can cost a file although a slot is free |
| `LogRotation.AppendKept` | DeepSeerLib/src/Log/FileSink.cpp:30-31 | a write, short or not, leaves every file a run of consecutive lines |
| `LogRotation.FileSink.ShiftUp` | DeepSeerLib/src/Log/FileSink.cpp:67-72 | the loop, with any of its renames failing, keeps the files runs of lines in order; if none fails it is the chain on values |
| `LogRotation.FileSink.Rotate` | DeepSeerLib/src/Log/FileSink.cpp:52-78 | the same for the whole rotation, and the file is opened again, or not |
| `LogRotation.FileSink.OpenFile` | DeepSeerLib/src/Log/FileSink.cpp:80-90 | keeps existing contents, sizes agree; the attempt is recorded |
| `LogRotation.RunShelves` | DeepSeerLib/src/Log/FileSink.cpp:24-90 | for every sequence of lines: rotated files oldest to newest, then the active file, hold a suffix, cut between lines; lines are deleted only once all slots are taken; numbers and sizes are bounded, each rotated file overshoots by less than its last line |
| `LogRotation.CountRule` | DeepSeerLib/src/Log/FileSink.cpp:52-78 | when the number of rotated files stays within maxFiles |
| `LogRotation.FileSink.Write` | DeepSeerLib/src/Log/FileSink.cpp:24-50 | appends one line, or what a short write leaves of it, and rotates; the files stay runs of lines in order; as long as nothing has failed it rotates exactly when the file reaches its limit, the files hold exactly the lines RunShelves is about, and the number of rotated files stays within maxFiles under a condition on the state before |
| `LogRotation.Log` | DeepSeerLib/src/Log/FileSink.cpp:24-90 | over a whole run on a fresh sink lines are refused only after a failed attempt to open; every file holds consecutive accepted lines, older ones under higher numbers; if nothing failed the files hold exactly the lines the rule gives for the accepted prefix, hence a suffix of it |
| `LayerNorms.OnePassIsTwoPass` | SeerLib/src/Magika/MagikaModel.cpp:242-246 | E[x^2] - E[x]^2 equals the mean squared deviation and is never negative |
| `LayerNorms.ColumnStatistics` | SeerLib/src/Magika/MagikaModel.cpp:242-248 | the computed mean and clamped variance are the true ones: the clamp never acts |
| `LayerNorms.NormalisedSumsToZero` | SeerLib/src/Magika/MagikaModel.cpp:250-255 | before scale and bias a normalised column sums to zero |
| `LayerNorms.NormalisedColumnSumsToZero` | SeerLib/src/Magika/MagikaModel.cpp:250-255 | with unit scale and no bias every column of the array layerNorm leaves sums to zero |
| `LayerNorms.NormedFlat` | SeerLib/src/Magika/MagikaModel.cpp:250-255 | entry s * dim + d of the result, from entry s * dim + d before and the statistics of column d |
| `LayerNorms.EntryIsAffine` | SeerLib/src/Magika/MagikaModel.cpp:250-255 | the entry at the mean is the bias, and two entries differ by their difference times the reciprocal deviation and the scale |
| `LayerNorms.RowStartIsProduct` | SeerLib/src/Magika/MagikaModel.cpp:234-240 | row s of the flat array starts at s * dim |
| `LayerNorms.Accumulate` | SeerLib/src/Magika/MagikaModel.cpp:228-240 | the accumulation loops compute the sum and sum of squares of every column |
| `LayerNorms.LayerNorm` | SeerLib/src/Magika/MagikaModel.cpp:219-256 | in place, every entry is centred and scaled by the two-pass statistics of its column, then by its row's scale and bias |
| `LayerNorms.TwoPass` | SeerLib/src/Magika/MagikaModel.cpp:362-373 | the two loops compute mean and variance |
| `LayerNorms.LayerNorm1` | SeerLib/src/Magika/MagikaModel.cpp:362-379 | every element is normalised by the statistics of the whole vector |

## Left out

- Raw sockets, name resolution, kqueue, OpenSSL, llhttp and certificate generation: foreign calls, present only as nondeterministic contracts.
- `submit` overlapping a `shutdown` in progress: outside the engine's step system, see the assumptions above.
- `stop` before `run`: `run` sets the flag on entry; the step system starts with the loop running.
- Timers of the event loop: one-shot entries in a map, easy properties.
- Delivery of the last response bytes: `close` does not flush, so only conservation is stated.
- Several pipelined plaintext requests, or CONNECT inside an intercepted session: each would start another upstream connect.
- Raw bytes through a plain tunnel: written to the other side as they arrive, without the codecs.
- TLS reads and writes: their loops repeat those of the plain connection over SSL_read and SSL_write.
- URL rewriting, host and port extraction and message framing of de-chunked bodies: a request enters forwarding with its encoded head.
- `HeaderMap::append`, `empty` and the typed getters, and a codec of type `Both`.
- The inner Buffer of forwarding and of head printing: there buffers appear as the byte or character sequences that the module Buffers proves them to be.
- Wrap-around of size_t in buffer lengths: lengths are unbounded integers.
- `Buffer::move` onto itself, and the cost of the compaction inside `move`.
- Connections.Connection.HandOut: the error callback may close the connection or switch reading; a write from inside it is not modelled. The data and close callbacks are the last act of a read, so what they do, writes included, are the next calls of a run.
- Http1.PrintParseRoundTrip: the model's parser accepts some header names that llhttp rejects (such as ones with a tab or parentheses), and goes on after a CONNECT head, where llhttp stops.
- WeightFile.LoadFile: a file shorter than the magic leaves the source's comparison buffer uninitialised; the model rejects it. Allocation failure on huge lengths is not modelled.
- LogRotation.FileSink.Write: starts from an empty directory; pre-existing log files are not modelled.
- LayerNorms.LayerNorm: floats are reals and 1 / sqrt(variance + eps) is an arbitrary function of the variance; rounding is not modelled, nor a sequence length of 0.
- Embedding, GELU, convolution, pooling, softmax, token extraction, Listener, Server, Address, Logger and ConsoleSink: plumbing or plain formulas with only easy properties.
