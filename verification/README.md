# spigeon: a verified model of its core

spigeon is an event-driven server framework. It stands on libev, on an incremental
HTTP parser, on SDS strings and on a queue between two threads. This project models
those cores in Dafny and proves what they are for.

`dafny verify dfyconfig.toml` checks everything.

## What is modelled

**HTTP parser** (`Http*.dfy`). The state machine of about 55 states, in strict mode.
`HttpParser` gives one pass of the switch, `HttpStream` the meaning of a stream
octet by octet, and `HttpExecute` the executing loop with its marks into the current
buffer, its bulk skips over bodies and its final flush. The loop refines the meaning,
so how a stream is cut into buffers does not matter; `HttpGlue` states it for callbacks
with adjacent fragments glued, and `HttpFragments` says what an error leaves unreported. `HttpRequestLine` to `HttpResponses` print requests and responses
and show that parsing gives them back: methods, targets, versions, statuses, headers,
bodies that are sized, chunked or end with the connection, pipelines. `HttpMethodNames`
says which octets are taken for which method. `HttpOutcomes`
says what becomes of well-formed heads in every case, too long, rejected, skipped or
upgraded, and `HttpEndToEnd` delivers streams in any pieces. `HttpUrl` and
`HttpUrlRoundTrip` do the same for URLs. The header limit is a field of the environment
`Env`, next to the `on_headers_complete` callback; the source has one fixed limit.

**Event loop** (`Wakeup`, `Pending`, `Invocation`, `ReverseFeed`, `TimerHeap`, `Expiry`,
`Timers`, `TimerRuns`, `WatcherList`, `FdInterest`, `FdRuns`). `Wakeup` is the lock-free handshake between any number of
senders and the loop, one memory access per step. `Pending` holds the queues per
priority and a ledger of what was fed, delivered and dropped, `Invocation` the loop that
runs callbacks which feed and clear in turn. The timers are a 4-ary
heap in an array; the operations on it refine the operations on a plain table.
`FdInterest` holds the watcher lists, the list of changed fds and the poll array, and
`FdRuns` their runs; `WatcherList` shows the lists as linked lists.

**Threads** (`SpscQueue`, `Handoff`). The queue at the level of single accesses, with
addresses reused as soon as they are freed, and the dispatcher that deals sockets to
workers over one such queue and one pipe each.

**Connections and strings** (`TcpConnection`, `TcpRuns`, `Sds`, `SdsQuote`, `IntText`,
`Crc32c*`, `ConfigTree`, `ConfigRuns`, `ConfigLife`). Reply draining and framing on one
connection and whole runs of it under a handler that answers each text it is handed, SDS
buffers in place, quoting and splitting of argument lines, integers as text, the
four-octets-at-a-time CRC-32C, and the tree of a configuration file with its in-place
destroyer, from the first node to the last free, over any number of files.

Conventions: times are `real`; masks are the sets of their bits; integer widths are
written out where the code depends on them; `hide` keeps definitions out of proofs
that do not need them.

## Where the code differs from what one would expect

- The table `unhex` has 128 initialisers for 256 slots, so octets from 128 up count as
  hexadecimal digit zero in a chunk size (`HttpSyntax.UnhexAccepts`,
  `HttpBodies.SizeStarts`).
- In the third octet of a method name most methods take anything, so that `GEX` is GET
  (`HttpMethodNames.MisspeltMethod`); `HttpMethodNames.MethodExact` says exactly what is
  taken for which method.
- The overflow test on Content-Length and chunk sizes is partial: some larger numbers
  are accepted modulo 2^64 (`HttpHeaders.NumberWraps`, `HttpBodies.SizeWraps`). The value
  is right exactly below 2^64 - 1 (`HttpHeaders.NumberExact`, `HttpBodies.SizeExact`).
- On a parse error the octets of the buffer in the open fragment are not reported
  (`HttpEndToEnd.LosesChunk`); `HttpExecute.Connection.Execute` says which they are, and
  `HttpExecute.AllTold` when there are none.
- The header octet count is not reset after a chunked trailer, so it counts against the
  next head on the connection (`HttpOutcomes.TrailerCounts`,
  `HttpOutcomes.ReplyTrailerCounts`); `HttpOutcomes.PipelineExact` and
  `HttpOutcomes.RepliesExact` say exactly when that makes a connection fail.
- A response with status 1xx, 204 or 304 has a body if its headers announce one, against
  section 4.4 of RFC 2616 (`HttpOutcomes.NotModifiedBody`, `HttpOutcomes.BodilessExact`).
- `http_parser_parse_url` reads the host slice of its result structure even when the URL
  has no host, so that what the structure held before can decide the outcome
  (`HttpUrl.SchemeAlone`); `HttpUrl.StaleExact` says exactly when it does not.
- Offsets and lengths of URL parts wrap at 65536 (`HttpUrl.PathExact`,
  `HttpUrlRoundTrip.LongUrl`); `HttpUrlRoundTrip.UrlRoundTrip` and
  `HttpUrlRoundTrip.ConnectRoundTrip` say exactly when nothing wraps.
- `ev_invoke_pending` goes down the priorities once: an event fed to a higher priority
  than the one being served stays queued (`Invocation.LeavesEvent`);
  `Invocation.Loop.InvokePending` and `Invocation.LeftExact` say exactly when anything does.
- The slow path of `downheap` tests for a fourth child, which cannot exist there
  (asserted in `Timers.Loop.FindMinChild`).
- An empty reply stalls the reply list: writing nothing looks like a full socket buffer
  (`TcpConnection.Connection.WriteAll` says exactly when the list drains).
- A handler that asks for no octets ends its connection: reading nothing looks like a peer
  that closed (`TcpConnection.ClosesOnEmptyFrame`; `TcpRuns.ClosedExact` says exactly when a
  connection is closed).
- After a handler asks for a shorter frame that is already in the buffer, nothing calls
  it until the next read event (`TcpConnection.LeavesFrameWaiting`).
- `config_read_file` frees the old tree and keeps its root when the new file fails, so that
  the next call frees it again (`ConfigLife.SecondFileFails`); `ConfigLife.Life` says exactly
  when that happens.
- `Connection::read` and `Connection::write` have no return statement; the model takes
  the result of the socket call, which is what the callers use.

## Model

| member | source | states |
|---|---|---|
| `HttpInvariant.SwitchKeeps` | deps/evhttpclient/http_parser.c:655-1822 | from a reachable parser state every octet leads to a reachable one: the method and keyword matchers stay inside their strings, `nread` is 1 at a chunk size, the unreachable header branches stay so, and no counter leaves its width |
| `HttpInvariant.InitValid` | deps/evhttpclient/http_parser.c:1905-1914 | a fresh parser is in a reachable state |
| `HttpParser.Switch` | deps/evhttpclient/http_parser.c:655-1822 | whatever the state and octet, a step keeps to the discipline of marks: a fragment is opened, kept or flushed as the state says, never skips past the buffer, and re-execution makes progress |
| `HttpRequestLine.TailExact` | deps/evhttpclient/http_parser.c:512-571 | from the path on the URL machine takes exactly the printable ASCII octets other than space |
| `HttpRequestLine.OriginTarget` | deps/evhttpclient/http_parser.c:432-578 | a target that begins with a slash or a star is accepted if and only if all its octets are such |
| `HttpParser.AddDigitExact` | deps/evhttpclient/http_parser.c:1459-1477 | a digit is taken with the value it stands for if and only if that value is below 2^64 - 1 |
| `HttpStream.ParseConcat` | deps/evhttpclient/http_parser.c:643-1852 | parsing `a ++ b` octet by octet is parsing `a` and then, unless that stopped, `b` |
| `HttpStream.ParseUsed` | deps/evhttpclient/http_parser.c:643-1852 | without error or upgrade every octet is used |
| `HttpStream.ParseErrno` | deps/evhttpclient/http_parser.c:643-1852 | a run that ends in order leaves no error number |
| `HttpExecute.Connection.Execute` | deps/evhttpclient/http_parser.c:580-1852 | the executing loop with its marks, bulk body skips and final flush leaves the parser, the octet count and the callbacks of the octet-at-a-time meaning; after an error the callbacks lack exactly the octets of this buffer in the fragment that is open at the octet in error |
| `HttpExecute.AllTold` | deps/evhttpclient/http_parser.c:1845-1852 | so after an error everything was told if and only if no octet of this buffer is in an open fragment |
| `HttpFragments.SinceInterior` | deps/evhttpclient/http_parser.c:1651-1697 | inside a body every octet lengthens the open fragment |
| `HttpFragments.SinceConcat` | deps/evhttpclient/http_parser.c:620-640 | the length of the open fragment goes on from one part of the input to the next |
| `HttpFragments.AgainIsQuiet` | deps/evhttpclient/http_parser.c:652-1822 | wherever an octet is executed again no fragment is open |
| `HttpFragments.SinceChunk` | deps/evhttpclient/http_parser.c:1774-1808 | a complete chunk followed by anything but a carriage return is one open fragment when the parser fails |
| `HttpEndToEnd.LosesChunk` | deps/evhttpclient/http_parser.c:1774-1808 | hence its octets in that buffer are read and never reported |
| `HttpExecute.Connection.ExecuteEof` | deps/evhttpclient/http_parser.c:598-617 | end of input completes a message that is delimited by it, is accepted between messages, and is an error elsewhere |
| `HttpExecute.Connection.FlushLeftovers` | deps/evhttpclient/http_parser.c:1824-1844 | the open fragment at the end of a buffer, and nothing else, is reported |
| `HttpExecute.AtMostOneMark` | deps/evhttpclient/http_parser.c:1834-1837 | at most one mark is set when the buffer ends |
| `HttpExecute.SplitIndependence` | deps/evhttpclient/http_parser.c:580-1852 | feeding `a ++ b` at once or `a` then `b` ends, short of an upgrade, in the parser that the meaning of `a ++ b` gives, and without an error tells the callbacks its data, up to fragment boundaries; after an error each lacks exactly its open fragment, and the two calls have told all that the one call has |
| `HttpGlue.SameGlue` | deps/evhttpclient/http_parser.c:1824-1844 | two logs of callbacks consist of the same octets and notices if and only if they are equal once adjacent fragments of a kind are glued |
| `HttpGlue.GluedStays` | deps/evhttpclient/http_parser.c:1824-1844 | a log in which nothing can be glued is its own gluing, so it is the only such one with its octets |
| `HttpGlue.SplitGlued` | deps/evhttpclient/http_parser.c:580-1852 | a stream read to its end in one buffer or in two brings the same glued callbacks, those of its meaning |
| `HttpRequestLine.ReadsMethod` | deps/evhttpclient/http_parser.c:879-984 | each of the 26 method names is recognised as its method, through every guess the code corrects on the way |
| `HttpMethodNames.MethodExact` | deps/evhttpclient/http_parser.c:887-984 | octets are taken for a method if and only if they are its name, or differ from it in the third octet only and the method is not one of the seven whose third octet is looked at |
| `HttpMethodNames.MisspeltMethod` | deps/evhttpclient/http_parser.c:920-984 | `GEX` is taken for GET |
| `HttpRequestLine.ReadsRequestLine` | deps/evhttpclient/http_parser.c:879-1179 | a printed request line yields its method, its target to `on_url`, and its version |
| `HttpHeaders.TracksNext` | deps/evhttpclient/http_parser.c:1181-1337 | the incremental name matcher follows the lower-cased prefix read so far |
| `HttpHeaders.TracksClass` | deps/evhttpclient/http_parser.c:1181-1337 | at the colon the matcher state is the class of the whole name: exactly the known names are recognised, without regard to case |
| `HttpHeaders.EffectOfHeader` | deps/evhttpclient/http_parser.c:1361-1523 | reading a header value sets exactly the flag or length the header calls for |
| `HttpHeaders.NumberExact` | deps/evhttpclient/http_parser.c:1459-1477 | a Content-Length is accepted with its value if and only if that value is below 2^64 - 1 |
| `HttpHeaders.NumberWraps` | deps/evhttpclient/http_parser.c:1459-1477 | three times ten to the 19th is accepted as a smaller number |
| `HttpHeaders.ReadsHeader` | deps/evhttpclient/http_parser.c:1181-1558 | a printed header line is told to the callbacks name and value, with its effect |
| `HttpHeaders.LwsIsLineStart` | deps/evhttpclient/http_parser.c:1540-1558 | the octet after a header line starts the next line unless it is blank |
| `HttpBodies.ReadsHeaders` | deps/evhttpclient/http_parser.c:1181-1558 | any list of header lines, with their effects in order |
| `HttpBodies.ReadsIdentity` | deps/evhttpclient/http_parser.c:1651-1697 | a body of announced length n is exactly the next n octets, then one message-complete |
| `HttpBodies.ReadsChunks` | deps/evhttpclient/http_parser.c:1699-1815 | any chunks deliver the concatenation of their data |
| `HttpBodies.ReadsChunked` | deps/evhttpclient/http_parser.c:1699-1815 | a chunked body with any sizes, extensions and trailer is delivered exactly and completes the message once |
| `HttpBodies.ReadsTrailerEnd` | deps/evhttpclient/http_parser.c:1560-1575 | the blank line after a trailer completes the message |
| `HttpBodies.SizeExact` | deps/evhttpclient/http_parser.c:1699-1746 | the octets that the table takes for digits are accepted as a chunk size with their value if and only if that is below 2^64 - 1 |
| `HttpBodies.SizeStarts` | deps/evhttpclient/http_parser.c:1699-1712 | the parser begins a chunk size with an octet if and only if it is a hexadecimal digit or lies outside ASCII |
| `HttpBodies.SizeWraps` | deps/evhttpclient/http_parser.c:1736-1746 | a size line that is accepted with a smaller size than it says |
| `HttpMessages.ReadsRequest` | deps/evhttpclient/http_parser.c:580-1852 | print-then-parse for any request that does not upgrade: method, target, version, headers and body come back, and the parser is ready for the next request or closed |
| `HttpMessages.ReadsPipeline` | deps/evhttpclient/http_parser.c:580-1852 | the same for any number of requests on one connection |
| `HttpResponses.ReadsStatusLine` | deps/evhttpclient/http_parser.c:690-877 | a printed status line yields its version and status |
| `HttpResponses.ReadsReplyLf` | deps/evhttpclient/http_parser.c:1560-1649 | the end of the head decides by status and headers whether a body follows, by length, in chunks or until the close |
| `HttpResponses.ReadsUntilClose` | deps/evhttpclient/http_parser.c:1687-1692 | a body without an end of its own is delivered octet for octet and stays open |
| `HttpResponses.EffectKeepsChunked` | deps/evhttpclient/http_parser.c:1525-1546 | a trailer cannot take back that the body is chunked |
| `HttpResponses.ReadsReply` | deps/evhttpclient/http_parser.c:580-1895 | print-then-parse for any response without an upgrade: version, status, headers and body come back, and the parser is ready for the next response, closed, or waiting for the close |
| `HttpResponses.ReadsReplies` | deps/evhttpclient/http_parser.c:580-1895 | the same for any number of responses on one connection |
| `HttpOutcomes.HeadOutcome` | deps/evhttpclient/http_parser.c:1560-1649 | the end of every well-formed head for every callback: rejected, body skipped, upgraded, or body as announced, with the octets used and the callbacks told |
| `HttpOutcomes.ReplyHeadOutcome` | deps/evhttpclient/http_parser.c:1560-1649 | the same for the heads of responses |
| `HttpOutcomes.SmallerLimit` | deps/evhttpclient/http_parser.c:643-650 | another header limit changes nothing but whether the header overflows |
| `HttpOutcomes.HeadExact` | deps/evhttpclient/http_parser.c:643-650 | a printed head is read to its end if and only if it fits together with the octets counted before; otherwise the error is the overflow |
| `HttpOutcomes.ReplyHeadExact` | deps/evhttpclient/http_parser.c:643-650 | the same for responses |
| `HttpOutcomes.PipelineExact` | deps/evhttpclient/http_parser.c:1560-1569 | requests on one connection are read in order if and only if all but the last keep it alive and every head fits together with what the trailer before it left counted; otherwise the error is the overflow or the closed connection |
| `HttpOutcomes.RepliesExact` | deps/evhttpclient/http_parser.c:1560-1649 | responses on one connection are read in order, and told exactly, if and only if, taking all that follows a body without an end of its own for that body, all but the last keep it alive and every head fits together with what the trailer before it left counted; otherwise the error is the overflow or the closed connection |
| `HttpOutcomes.HeardPrints` | deps/evhttpclient/http_parser.c:1687-1692 | taking what follows such a body for that body leaves the text as it is |
| `HttpOutcomes.TrailerCounts` | deps/evhttpclient/http_parser.c:1560-1569 | two requests that are each read on a connection of their own and not on one |
| `HttpOutcomes.ReplyTrailerCounts` | deps/evhttpclient/http_parser.c:1560-1569 | two such responses |
| `HttpOutcomes.PipelineUpgrades` | deps/evhttpclient/http_parser.c:1608-1615 | a pipeline whose last request upgrades stops behind its head with everything told, whatever follows |
| `HttpOutcomes.BodilessExact` | deps/evhttpclient/http_parser.c:1617-1645 | a 1xx, 204 or 304 is complete at the blank line if and only if its headers announce neither chunks nor a positive length |
| `HttpOutcomes.NotModifiedBody` | deps/evhttpclient/http_parser.c:1625-1632 | a 304 whose five body octets are read and reported |
| `HttpEndToEnd.Receive` | deps/evhttpclient/http_parser.c:580-1852 | every stream received in any non-empty pieces until it ends, fails or upgrades: parser, octets taken and callbacks are those of the whole stream, and an error loses no more than in a single call |
| `HttpEndToEnd.ParseUpgrade` | deps/evhttpclient/http_parser.c:1573-1615 | the upgrade flag tells an upgrade from the end of the input |
| `HttpEndToEnd.ReceiveUpgrade` | deps/evhttpclient/http_parser.c:1608-1615 | requests of which the last upgrades, in any pieces: they are told, the flag is set, and exactly their octets are taken |
| `HttpEndToEnd.ReceiveReplies` | deps/evhttpclient/http_parser.c:580-1852 | printed responses received in any pieces up to the close are told exactly, the last one completed by the close if only that delimits it |
| `HttpEndToEnd.ReceiveRequests` | deps/evhttpclient/http_parser.c:580-1852 | printed requests received in any non-empty pieces are told exactly, whatever the cuts |
| `HttpSyntax.UnhexAccepts` | deps/evhttpclient/http_parser.c:188-197 | a chunk-size octet is accepted if and only if it is a hexadecimal digit or lies outside ASCII |
| `HttpUrl.UrlLoop` | deps/evhttpclient/http_parser.c:2066-2163 | the loop over a URL computes the fields of the specification function, from any earlier contents of the result structure |
| `HttpUrl.HostLoop` | deps/evhttpclient/http_parser.c:1993-2064 | the loop over an authority does |
| `HttpUrl.ScanFits` | deps/evhttpclient/http_parser.c:2079-2133 | no field reaches past what has been read |
| `HttpUrl.PathExact` | deps/evhttpclient/http_parser.c:2079-2133 | the slice of a path of any length has that length modulo 65536, so it shows the path if and only if that is shorter |
| `HttpUrl.StaleDecides` | deps/evhttpclient/http_parser.c:2136-2143 | with a scheme and no host the outcome is decided by the host slice that the structure held before |
| `HttpUrl.StaleExact` | deps/evhttpclient/http_parser.c:2066-2163 | the result is independent of that slice if and only if the URL is not one with a scheme and no host |
| `HttpUrl.SchemeAlone` | deps/evhttpclient/http_parser.c:2136-2143 | `http` fails or succeeds by what the structure held before |
| `HttpUrl.ScanPrinted` | deps/evhttpclient/http_parser.c:2079-2133 | the first pass over a printed URL of any length finds scheme, whole authority, path, query and fragment, with offsets and lengths modulo 65536 |
| `HttpUrlRoundTrip.ParsesAuthority` | deps/evhttpclient/http_parser.c:1993-2064 | the second pass takes a printed authority apart into user information, host name or IPv6 address, and port |
| `HttpUrlRoundTrip.UrlRoundTrip` | deps/evhttpclient/http_parser.c:2066-2163 | print-then-parse for every URL over the strict character classes, whatever follows it in memory and was in the structure before: every part comes back at its place if and only if no offset and no length needs more than 16 bits |
| `HttpUrlRoundTrip.LongUrl` | deps/evhttpclient/http_parser.c:2066-2163 | if scheme and authority lie below 65536, a URL of any length is accepted, with path, query and fragment at offsets and lengths modulo 65536 |
| `HttpUrlRoundTrip.AnyUrl` | deps/evhttpclient/http_parser.c:2066-2163 | whatever the lengths, if a printed URL is accepted its scheme, path, query and fragment are so |
| `HttpUrlRoundTrip.FieldsShowParts` | deps/evhttpclient/http_parser.c:2066-2163 | the slices of that result show the printed parts, and absent parts have none |
| `HttpUrlRoundTrip.ConnectRoundTrip` | deps/evhttpclient/http_parser.c:2066-2163 | the host and port of a CONNECT request come back if and only if they have fewer than 65536 octets |
| `Wakeup.StepKeeps` | deps/libev-4.11/ev.c:1848-1960 | every step of any sender or of the loop keeps the coverage of flags and of sent bits |
| `Wakeup.NoLostWakeup` | deps/libev-4.11/ev.c:1848-1941 | in every interleaving of any number of senders, a loop blocked in the backend while a flag is set has a readable pipe or a sender on its way to writing it |
| `Wakeup.NoLostEvent` | deps/libev-4.11/ev.c:1893-1960 | in every interleaving a set per-watcher bit is covered by its flag, by the scan under way or by a sender in flight |
| `Wakeup.Delivers` | deps/libev-4.11/ev.c:3005-3067 | from every state with no sender in flight the loop alone feeds every sent event |
| `Wakeup.EventualDelivery` | deps/libev-4.11/ev.c:4289-4294 | hence, after any run, everything sent is fed once the senders are done |
| `SpscQueue.StepRefines` | src/util/queue.h:31-48 | every single memory access of producer or consumer is a step of an atomic FIFO, or invisible |
| `SpscQueue.StepSafe` | src/util/queue.h:31-48 | no access touches a node that is not allocated |
| `SpscQueue.QueueCorrect` | src/util/queue.h:31-48 | in every interleaving values come out once each in order, first, divider and last stay in order along the chain, nothing freed is touched and nothing leaks, with addresses reused at will |
| `Handoff.MessageFindsSocket` | src/server/worker.cpp:453-467 | a NEW_CONNECTION message always finds a queued socket |
| `Handoff.HandoffCorrect` | src/server/dispatcher.cpp:236-252 | in every run, failed notifications included, a worker adopts a prefix of its round-robin share in dispatch order, shares differ by at most one, and at rest exactly the failed messages are outstanding |
| `TimerHeap.Parent` | deps/libev-4.11/ev.c:1669-1672 | the root is its own parent, which rests on division truncating toward zero |
| `TimerHeap.UpHeaps` | deps/libev-4.11/ev.c:1755-1774 | sifting up repairs a heap with one element too small for its place |
| `TimerHeap.DownHeaps` | deps/libev-4.11/ev.c:1675-1716 | sifting down repairs a heap with one element too large for its place |
| `TimerHeap.AdjustHeaps` | deps/libev-4.11/ev.c:1777-1784 | adjusting repairs a heap around one arbitrary element |
| `TimerHeap.UpShuffles` | deps/libev-4.11/ev.c:1755-1774 | sifting up permutes the heap and leaves the rest of the array |
| `TimerHeap.DownShuffles` | deps/libev-4.11/ev.c:1675-1716 | sifting down does |
| `TimerHeap.AdjustShuffles` | deps/libev-4.11/ev.c:1777-1784 | so does adjusting |
| `TimerHeap.RootIsLeast` | deps/libev-4.11/ev.c:2727-2752 | the root expires first |
| `Timers.Loop.UpHeap` | deps/libev-4.11/ev.c:1755-1774 | the in-place loop computes the sift and keeps `active` equal to the slot for every watcher |
| `Timers.Loop.DownHeap` | deps/libev-4.11/ev.c:1675-1716 | the in-place loop, with its unrolled scan for the smallest child, does |
| `Timers.Loop.FindMinChild` | deps/libev-4.11/ev.c:1685-1705 | the fast and the slow scan both find the leftmost smallest of the children that exist |
| `Timers.Loop.AdjustHeap` | deps/libev-4.11/ev.c:1777-1784 | adjusting in place is the adjustment, a permutation of the heap, with the slots right |
| `Timers.Loop.Reheap` | deps/libev-4.11/ev.c:1787-1796 | any array of active timers becomes a heap, as a permutation, with the slots right |
| `Timers.Loop.TimerStart` | deps/libev-4.11/ev.c:3271-3292 | starting a timer does to the heap what it does to a plain table of timers, and keeps heap order, slots, cached keys and the set of active timers |
| `Timers.Loop.TimerStop` | deps/libev-4.11/ev.c:3295-3322 | stopping does, and drops a pending event |
| `Timers.Loop.TimerAgain` | deps/libev-4.11/ev.c:3325-3349 | restarting does, in its four cases |
| `Timers.Loop.TimersReschedule` | deps/libev-4.11/ev.c:2854-2864 | shifting every expiry does |
| `Timers.Loop.TimersReify` | deps/libev-4.11/ev.c:2722-2756 | exactly the overdue timers go off, each once and in order of expiry; repeating ones are armed again not before now, the others stopped; afterwards none is overdue; the pending masks are known for every timer |
| `Timers.Loop.FeedReverseDone` | deps/libev-4.11/ev.c:1447-1452 | the list is fed from its end |
| `Timers.Loop.InvokePending` | deps/libev-4.11/ev.c:2680-2693 | with callbacks that leave the queues alone, all pending watchers run, highest priority first and last fed first, and the queues end empty |
| `Timers.Loop.ExpireAndInvoke` | deps/libev-4.11/ev.c:2680-2756 | with nothing pending beforehand every overdue timer runs exactly once, by priority and then in non-decreasing order of expiry |
| `Expiry.ReifyStep` | deps/libev-4.11/ev.c:2729-2750 | taking the earliest overdue timer extends the list of fired timers in order |
| `Expiry.ReifyEnd` | deps/libev-4.11/ev.c:2729-2752 | when none is overdue the list is exactly the overdue timers of the start |
| `Expiry.ExpiredSettles` | deps/libev-4.11/ev.c:2738-2742 | expiry leaves nothing overdue and is idempotent for one point in time |
| `TimerRuns.PerformAll` | deps/libev-4.11/ev.c:3271-3349 | every sequence of set, start, stop, again, reschedule, clock, expiry and invocation operations does to the heap and the queues what it does to a plain table of timers and the masks queued for them |
| `ReverseFeed.FeedBackOrder` | deps/libev-4.11/ev.c:1439-1452 | from idle queues a list sorted by key and fed from its end is invoked in full, once each, by priority and then by key |
| `ReverseFeed.FeedBackQueued` | deps/libev-4.11/ev.c:1447-1452 | feeding a list ors the mask into what each listed watcher has queued and touches no other |
| `Pending.FeedQueued` | deps/libev-4.11/ev.c:1423-1437 | feeding ors the mask into what is queued for the watcher, for that watcher only |
| `Pending.ClearQueued` | deps/libev-4.11/ev.c:3176-3200 | clearing drops what is queued for the watcher, for that watcher only |
| `Pending.PopQueued` | deps/libev-4.11/ev.c:2680-2693 | an invocation takes exactly what is queued for the watcher it meets |
| `Pending.RunAccounts` | deps/libev-4.11/ev.c:1423-1437 | over every run of feeds, clears and invocations, callbacks included, each watcher is in at most one slot that `pending` names, and the queues hold exactly what was fed and neither delivered nor dropped |
| `Pending.PendingConserved` | deps/libev-4.11/ev.c:2680-2693 | hence from an empty start every delivery and every drop takes exactly what was outstanding |
| `Invocation.Loop.InvokePending` | deps/libev-4.11/ev.c:2680-2693 | with callbacks that feed and clear as they like: the rounds are those of the source, last fed first and priorities from the highest down, each call gets what is queued at that moment, and afterwards exactly those priorities hold anything to which a callback of a lower one fed an event |
| `Invocation.OneRun` | deps/libev-4.11/ev.c:2680-2693 | such rounds are determined by the queues and the callbacks |
| `Invocation.LeftExact` | deps/libev-4.11/ev.c:2680-2693 | what is left at the end of such rounds, decided by the calls and what each callback does |
| `Invocation.RoundsRun` | deps/libev-4.11/ev.c:2680-2693 | such rounds are a run of feeds, clears and invocations, so the ledger of runs covers them |
| `Invocation.RowAfter` | deps/libev-4.11/ev.c:1423-1437 | a row that is not popped has something queued exactly if it had or is fed |
| `Invocation.StaysQueued` | deps/libev-4.11/ev.c:2680-2693 | an event fed to priority 3 from a callback of priority 1 is queued when the rounds are over |
| `Invocation.LeavesEvent` | deps/libev-4.11/ev.c:2680-2693 | the loop itself ends so |
| `FdInterest.Fds.IoStart` | deps/libev-4.11/ev.c:3229-3249 | the watcher goes to the front of the list of its fd, the fd is flagged and listed as changed, no other record changes, and the bookkeeping invariant stays |
| `FdInterest.Fds.IoStop` | deps/libev-4.11/ev.c:3252-3268 | the watcher leaves the list, the fd is flagged and listed as changed, no other record changes, and the invariant stays, in the middle of a pass too |
| `WatcherList.Lists.Add` | deps/libev-4.11/ev.c:3152-3157 | on linked lists the watcher becomes the first of its list, and the others stay |
| `WatcherList.Lists.Delete` | deps/libev-4.11/ev.c:3160-3172 | the walk along the addresses of links bends the one that leads to the watcher, which leaves the list without it and the other lists alone |
| `FdInterest.Fds.WlistDel` | deps/libev-4.11/ev.c:3160-3172 | on the sequence the list stands for, the walk removes the first occurrence |
| `FdInterest.WithoutMeans` | deps/libev-4.11/ev.c:3160-3172 | which removes the watcher and nobody else |
| `FdInterest.Fds.FdKill` | deps/libev-4.11/ev.c:1576-1585 | exactly the active watchers of the fd are stopped and have the error event queued in place of what was pending for them; every other watcher and its queue stay |
| `FdInterest.Fds.ReifyOne` | deps/libev-4.11/ev.c:1530-1554 | working off one change calls the backend exactly when the interest changed or is to be set anew, kills exactly the watchers of that fd if the call is refused, and keeps the invariant |
| `FdInterest.Fds.FdReify` | deps/libev-4.11/ev.c:1501-1557 | the pass ends whatever calls the backend refuses, with no fd flagged; it calls the backend for exactly the flagged fds that need it, and exactly the watchers of the refused ones die |
| `FdInterest.Fds.FdEvent` | deps/libev-4.11/ev.c:1481-1491 | what is seen on an fd reaches exactly the watchers that want it, unless the fd is flagged |
| `FdInterest.Fds.PollModify` | deps/libev-4.11/ev_poll.c:51-86 | `polls` and `pollidxs` stay inverse under swap-removal, with one entry per fd of interest and its events |
| `FdInterest.ReifiedExact` | deps/libev-4.11/ev_poll.c:51-86 | with no change left the poll array asks for exactly the OR of the active watchers' masks, one entry per fd |
| `FdRuns.PerformAll` | deps/libev-4.11/ev.c:1501-1585 | every sequence of starts, stops, kills, events and passes with refusals does to the fields what it does to a plain table of watchers, interests, changes and queued events |
| `FdRuns.Settle` | deps/libev-4.11/ev.c:1501-1557 | and one more pass makes the poll array the OR over the active watchers of the table that the run leads to |
| `ConfigTree.Config.NewNode` | deps/new-config/config.c:51-53 | a new node is a tree of its own, and every tree in memory stays one |
| `ConfigTree.Config.CopyKey` | deps/new-config/config.c:114-137 | the node gets a key buffer of its own, and every tree in memory stays one |
| `ConfigTree.Config.AddChild` | deps/new-config/config.c:55-68 | a tree becomes the last child of a node of another tree, with parent, sibling, index and length links right everywhere and nothing else written |
| `ConfigTree.Config.FindChild` | deps/new-config/config.c:70-80 | the first child with the key, or none if no child has it |
| `ConfigTree.GrowBelow` | deps/new-config/config.c:55-68 | the links below every node stay right when a child is added somewhere |
| `ConfigTree.Config.Destroy` | deps/new-config/config.c:139-152 | the splicing loop ends, frees every node of the tree exactly once in breadth-first order, each with its key buffer, never touches what was freed, and leaves all other memory alone |
| `ConfigTree.Config.FreeFront` | deps/new-config/config.c:142-151 | one round frees the front with its key and leaves the next queue |
| `ConfigTree.SpliceKeeps` | deps/new-config/config.c:139-152 | splicing the children behind the queue and freeing its front leaves the next queue, strung together |
| `ConfigTree.VisitIsLevelOrder` | deps/new-config/config.c:139-152 | the order of the queue is level by level |
| `ConfigTree.LevelOrderNodes` | deps/new-config/config.c:139-152 | and visits every node exactly once |
| `ConfigRuns.PerformAll` | deps/new-config/config.c:51-137 | after any legal run of allocations, keys and additions memory holds exactly the forest that the run describes |
| `ConfigRuns.KeysFreedOnce` | deps/new-config/config.c:147-149 | nodes freed once each mean key buffers freed once each |
| `ConfigRuns.DestroyAll` | deps/new-config/config.c:139-152 | destroying the trees of a forest leaves nothing in memory, each node and each key buffer freed once |
| `ConfigRuns.BuildAndDestroy` | deps/new-config/config.c:51-152 | whatever a run builds from nothing, destroying it frees exactly the nodes and exactly the key buffers that the run allocated, once each |
| `ConfigLife.Life` | deps/new-config/config.c:298-327 | any files read into one `config_t` and its end: the root comes to point to freed memory if and only if some file fails right after one that parsed; otherwise everything allocated is freed exactly once |
| `ConfigLife.ConfigT.ReadFile` | deps/new-config/config.c:314-327 | the old tree is freed whatever becomes of the file; the root then stands for the new tree, is null, or dangles |
| `ConfigLife.SecondFileFails` | deps/new-config/config.c:314-327 | two files after which it dangles |
| `Crc32cRegister.ShiftsLinear` | src/util/crc32c.cpp:305-318 | the CRC register is linear over exclusive or |
| `Crc32cRegister.Table0Right` | src/util/crc32c.cpp:16-81 | the 256 constants of table 0 are the register run for 8 bits |
| `Crc32cRegister.Table1Right` | src/util/crc32c.cpp:82-147 | those of table 1 for 16 bits |
| `Crc32cRegister.Table2Right` | src/util/crc32c.cpp:148-213 | those of table 2 for 24 bits |
| `Crc32cRegister.Table3Right` | src/util/crc32c.cpp:214-279 | those of table 3 for 32 bits |
| `Crc32c.PolyReversed` | src/util/crc32c.cpp:16-81 | the register constant is the polynomial of section 12.1 of RFC 3720 with its bits reversed |
| `Crc32c.Step1Right` | src/util/crc32c.cpp:305-308 | one table lookup is eight bits of the register |
| `Crc32c.Step4Shifts` | src/util/crc32c.cpp:309-316 | four table lookups are 32 bits of the register |
| `Crc32c.FourOctets` | src/util/crc32c.cpp:309-316 | four octets entering one by one are a little-endian word entering at once |
| `Crc32c.Extend` | src/util/crc32c.cpp:300-343 | for every buffer, address and initial value the result is the bit-by-bit CRC-32C |
| `Crc32c.CrcExtends` | src/util/crc32c.h:15-18 | continuing from the CRC of a prefix gives the CRC of the whole |
| `Crc32c.MaskRoundTrip` | src/util/crc32c.h:27-40 | masking and unmasking are inverse |
| `SdsQuote.CatRepr` | src/util/sds.cpp:416-439 | the loop appends the quoted form |
| `SdsQuote.SplitArgs` | src/util/sds.cpp:484-589 | the loops compute the split, or fail exactly where it has none |
| `SdsQuote.ReadToken` | src/util/sds.cpp:500-571 | the inner loop reads one token with its quotes and escapes |
| `SdsQuote.ReadsEscape` | src/util/sds.cpp:505-530 | inside quotes the escape of any byte reads back as that byte |
| `SdsQuote.QuoteRoundTrip` | src/util/sds.cpp:480-482 | quoting any list of byte strings, joining with spaces and splitting gives the list back |
| `Sds.Kept` | src/util/sds.cpp:274-303 | the branches of `sdsrange` keep exactly the positions between the two ends, counted from the end when negative |
| `Sds.Sds.MakeRoomFor` | src/util/sds.cpp:94-112 | the string stays and the room is there, by the growth rule |
| `Sds.Sds.IncrLen` | src/util/sds.cpp:153-161 | what lies behind the string becomes part of it, with the NUL behind |
| `Sds.Sds.CatLen` | src/util/sds.cpp:182-194 | concatenation |
| `Sds.Sds.Range` | src/util/sds.cpp:274-303 | the string becomes the kept part of itself, in place |
| `TcpConnection.Connection.AddReply` | src/server/worker.cpp:221-235 | the reply is queued last and the loop watches for writability |
| `TcpConnection.Connection.WriteIo` | src/server/worker.cpp:272-300 | for every pattern of partial writes octets sent ++ octets queued stay all replies in order, each buffer is freed once when its reply is out, the loop ends, and the watch for writability stays on while anything is queued |
| `TcpConnection.Connection.WriteAll` | src/server/worker.cpp:272-300 | a kernel that takes everything drains the list if and only if no queued reply is empty |
| `TcpConnection.Connection.Close` | src/server/tcp_connection.cpp:33-41 | at the end every reply buffer has been freed exactly once |
| `TcpConnection.Connection.ReadIo` | src/server/worker.cpp:179-206 | what arrives is appended, the handler is handed the next octets exactly when enough are there, frames, buffer, state and next length become what its answer says, the connection closes exactly on a failed read or an answer that gives up, and a complete frame is left waiting for another event if and only if the handler asks for no more than is left over |
| `TcpConnection.Connection.ExpectNextFrame` | src/server/tcp_connection.cpp:49-53 | the frame is consumed and the rest stays |
| `TcpConnection.Connection.ShrinkProcessedFrame` | src/server/tcp_connection.cpp:55-63 | the same, with the processed part dropped from the buffer |
| `TcpConnection.Connection.ResetFrame` | src/server/tcp_connection.cpp:43-47 | the frames still in the buffer are taken back and read again |
| `TcpRuns.Deliver` | src/server/worker.cpp:179-206 | in any run of read events the connection is in the state that the run gives on a plain table: texts handed over, octets taken, where the next text and the buffer begin, the length and state asked for, and whether it is closed |
| `TcpRuns.RunSound` | src/server/worker.cpp:179-206 | in every run the texts handed over are the parts of the stream that the handler asked for, and nothing is asked of it after it gave up |
| `TcpRuns.ClosedExact` | src/server/worker.cpp:179-193 | a run is closed if and only if the handler gave up or had asked for no octets when the last event came |
| `TcpRuns.Comparable` | src/server/worker.cpp:179-206 | two lists of texts from one stream and one handler: one continues the other |
| `TcpRuns.CutsDoNotMatter` | src/server/worker.cpp:179-206 | one stream cut in two ways: one list of texts continues the other, neither goes past the point where the other connection was closed, and they are equal once both connections have the stream and neither leaves a complete text waiting |
| `TcpConnection.LeavesFrameWaiting` | src/server/worker.cpp:199-205 | a concrete run in which a complete shorter frame waits for another read event |
| `TcpConnection.ClosesOnEmptyFrame` | src/server/socket.cpp:230-244 | after a handler asks for no octets the next read event closes the connection, whatever the socket does |
| `IntText.Ll2String` | src/util/utils.cpp:99-118 | the text of every 64-bit integer, cut to the buffer with its NUL, and nothing else written |
| `IntText.String2Ll` | src/util/utils.cpp:123-184 | exactly the texts of 64-bit integers are accepted, each as its integer |
| `IntText.TextInjective` | src/util/utils.cpp:99-118 | no two integers have the same text |
| `IntText.RoundTrip` | src/util/utils.cpp:99-184 | through the buffer and back every 64-bit integer survives |

## Left out

- System calls and kernel behaviour: sockets, pipes, clocks, fork, signals, and the epoll, kqueue, port, select and win32 backends. Answers of the kernel are parameters, and the steps of the backend are choices.
- Weak memory: the handshake, the queue and the hand-off are taken under sequential consistency.
- Floating point: times are real numbers, so rounding is not modelled.
- HttpParser.Switch: the callbacks other than `on_headers_complete` return zero; pausing the parser from a callback is not modelled.
- HttpMessages.ReadsRequest: a request that upgrades has no body to read back and ends the parsing; HttpOutcomes.HeadOutcome and HttpOutcomes.PipelineUpgrades cover it.
- HttpMessages.ReadsPipeline: the same; a pipeline that ends with an upgrade is HttpOutcomes.PipelineUpgrades.
- HttpResponses.ReadsReply: responses that upgrade, and callbacks that have the body skipped or reject the message, are HttpOutcomes.ReplyHeadOutcome.
- HttpResponses.ReadsReplies: the answers of the callback are a function of the parser, so that skipping the body of some responses only, by what was asked for, is not modelled for streams.
- HttpEndToEnd.ReceiveReplies: the same; HttpEndToEnd.Receive covers every stream and callback.
- HttpEndToEnd.ReceiveRequests: a stream that ends with an upgrade is HttpEndToEnd.ReceiveUpgrade.
- HttpUrlRoundTrip.AnyUrl: of a URL whose scheme and authority reach beyond 65535, what the second pass makes of the authority, which it then reads from a wrong place, is not described.
- Timers.Loop.InvokePending: callbacks leave the queues alone here; Invocation.Loop.InvokePending lets them feed and clear.
- Timers.Loop.ExpireAndInvoke: the same.
- Invocation.Loop.InvokePending: what a callback does is a function of the calls so far; callbacks do not call `ev_invoke_pending` themselves, and from some point on they feed nothing more, without which the loop does not end.
- Timers.Loop.NeedSize: the rounding of `array_nextsize` is not modelled, only that there is room and the contents stay.
- FdInterest.Fds.WlistDel: the watcher lists are sequences here; WatcherList.Lists.Delete is the update through a pointer to a link.
- FdInterest.Fds.FdReify: the win32 handle check is left out.
- SpscQueue.QueueCorrect: one producer and one consumer, as the queue demands; the lock around the message queue of a worker is left out.
- ConfigTree.Config.Destroy: the root has no siblings, as everywhere the code calls it; destroying an inner node is not modelled.
- Sds.Sds.Range: lengths are unbounded, so strings beyond the `int` fields of the header are not modelled.
- Crc32c.Extend: addresses are unbounded, so a buffer at the very end of the address space is not modelled.
- IntText.Ll2String: the negation of the least integer is taken as two's complement gives it.
- Periodic timers, the other watcher kinds of libev, and the resizing of its arrays: more members of the same kind.
- UDP paths, the HTTP client, the socket and network managers, logging, statistics, files and lock wrappers.
- `config_parse_file`: the reading of groups and the flex tables, and the value that shares the buffer of a key.
- ConfigTree.Config.CopyKey: a node gets its key once, as the code does it; a second buffer would leak the first.
- TcpRuns.Deliver: the handler decides by the texts it was handed, and the network by amounts per event; errors of the socket are in TcpConnection.Connection.ReadIo.
- ConfigLife.Life: a file is what the parser builds of it; failing allocations and the error message are left out.
- MurmurHash and `url_snprintf`: nothing is promised of them beyond their text.
