# A verified model of the host Arduino/ESP32 runtime

The repository runs Arduino and ESP32 sketches on a host machine. Most of it passes calls on to sockets, files
and libraries; this project models the parts that are protocols, state machines and codecs of its own, and proves
what they are for:

* **FreeRTOS subset** (`FreeRtosQueue`, `FreeRtosQueueHistory`, `FreeRtosQueueWaits`, `FreeRtosQueuePeek`,
  `FreeRtosSemaphore`, `FreeRtosSemaphoreHistory`, `FreeRtosNotify`). Tasks interleave at every lock acquisition, wait, wakeup, timeout, spurious wakeup, unlock and
  notification, with `notify_one` issued after the unlock and barging allowed. Over every run: no lost wakeups,
  linearizability to a bounded deque and to an atomic counter, conservation and order of items, mutual exclusion,
  conservation of counts and of notifications, and what the ticks to wait promise: who may fail, who may sleep.
* **esp_timer** (`EspTimer`). The runner drops its lock around the callback while start and stop race with it.
* **HTTPClient** (`HttpUrl`, `HttpRedirect`, `HttpBody`, `HttpExchange`, `HttpServer`). Building, parsing and
  resolving URLs undo each other; the redirect loop; request text, as a server that knows nothing of the client reads
  it, and response head; chunked and Content-Length bodies for every fragmentation of the wire.
* **Interrupt port** (`HostInterrupt`). Handlers are trees of calls into the port, nested to any depth.
* **LEDC, DAC and tone** (`HostBus`, `HostBusTables`, `HostBusCalls`). The channel allocator, the event stream, and
  the values each call leaves.
* **Stream, clock, UART, console** (`StreamFind`, `Numbers`, `Deadlines`, `HostUart`, `HostUartCalls`, `Console`).
* **Paths** (`Paths`). The index scan of `sanitizePath` against split, filter and join.

Code that updates fields in place is a class here, its loops are loops, and each method's postcondition equates the
new state with a specification function of the old one; the theorems are about those functions, over all inputs
and all runs. Beside the specification functions each operation has a law told in other terms: an atomic object, a
reader for the other end of a wire, an account in numbers of what the call leaves. `Common` holds what the modules share: machine words, runs of a labelled state machine, counting.

Things outside the modelled code are parameters, so that the theorems hold for all of them: the interleaving is a
list of labels; the server of a redirect chain is a list of responses; reads of the wire return any non-empty
piece; the activity hook of a UART is any function of what it has recorded; the socket of the console and the
clock port are functions of the number of the attempt or wait; a handler's behaviour is any tree of calls.

Where a promise fails in the code, the model keeps the code, and lemmas say when exactly it holds:

* No wakeup of a queue is lost in runs whose peeks do not wait (`NothingLostWithoutWaitingPeeks`). A peek that waits
  can swallow a notification meant for a receiver, which then sleeps next to an item; from every run with three tasks
  free to do so that can still come about (`PeekLosesAWakeup`).
* `xSemaphoreGive` does not check the owner, so gives of a stranger break mutual exclusion
  (`StrangersGiveBreaksExclusion`, `StrangersGiveMiscounts`), and the 32-bit recursion count wraps
  (`DeepestTakeWraps`).
* A timer start is served iff it was not made during a callback (`StartIsServedIffIdle`), and on time iff its expiry
  is below 2^63, because the due test is signed (`StartIsOnTimeIff`, `FarRearmFiresAtOnce`).
* `resolveLocation` takes every Location with `://` past its start as absolute, a root-relative one with a URL in
  its query too (`ResolveRoundTrip`, `RootRelativeWithSchemeFails`).
* Bodies containing NUL lose bytes, depending on the fragmentation (`BodyExactIffNulFree`, `FragmentationShows`).
* `findUntil` falls back to the first character only and misses `aab` in `aaab` (`FindIsCompleteIffRepeats`).
* Nesting one pin's triggers past 255 loses its depth (`DepthRestoredIff`, `DeepNestingLosesDepth`).
* Deadlines wrap in 64 bits (`DelayIsExact`, `FailureIsExact`).
* What is written between accepting a console client and flushing the buffer reaches it twice
  (`InOrderIffNothingBetween`).

The comment at `cores/host/HTTPClient.h:17-19` says that redirects are not followed automatically; the code at
`cores/host/HTTPClient.h:164-228` follows them, and so does the model.

## Model

| member | source | states |
|---|---|---|
| `FreeRtosQueue.Queue.Locked` | cores/host/freertos/FreeRTOS.h:259-365 | one stay of send, receive, peek, reset or a size query inside the mutex: verdict and new items are the specification's, within the capacity |
| `FreeRtosQueue.NoLostWakeups` | cores/host/freertos/FreeRTOS.h:259-365 | in every state of every run: with a receiver asleep, the items with neither a notification to come nor a notified waiter are no more than the notifications that went to peeks since the queue was last empty; with a sender asleep every free slot has one; never more items than the capacity |
| `FreeRtosQueue.NoLostWakeupsWithoutWaitingPeeks` | cores/host/freertos/FreeRTOS.h:259-365 | when every peek is called with no ticks to wait, each item has a notification to come or a notified waiter |
| `FreeRtosQueue.QuietMeansServed` | cores/host/freertos/FreeRTOS.h:259-327 | when no task is on its way: a sleeping sender means a full queue; a sleeping receiver means an empty one when no peek waited, and never both |
| `FreeRtosQueuePeek.ComesToRest` | cores/host/freertos/FreeRTOS.h:259-365 | from every reachable state the tasks can come to rest without a new call: no deadlock, and the notifications run out |
| `FreeRtosQueuePeek.PeekSteals` | cores/host/freertos/FreeRTOS.h:275-281 | whenever a receiver and a peek sleep, a send's notification may go to the peek: the item stays, the receiver sleeps on, no other task moves |
| `FreeRtosQueuePeek.PeekLosesAWakeup` | cores/host/freertos/FreeRTOS.h:329-347 | every run with a task receiving or free, one peeking or free and a third one free has a continuation that comes to rest with the receiver asleep next to an item |
| `FreeRtosQueuePeek.NothingLostWithoutWaitingPeeks` | cores/host/freertos/FreeRTOS.h:259-327 | and no run whose peeks do not wait ever does |
| `FreeRtosQueueHistory.SectionIsAtomic` | cores/host/freertos/FreeRTOS.h:259-365 | a stay that finishes has the result and effect of one operation of an atomic bounded deque |
| `FreeRtosQueueHistory.Linearizes` | cores/host/freertos/FreeRTOS.h:259-365 | every run linearizes: the actions in their order are legal for one atomic deque ending with the queue's items, and each action lies between its call and its return with the same result |
| `FreeRtosQueueHistory.Conserved` | cores/host/freertos/FreeRTOS.h:259-365 | sent = received + queued + discarded by reset, as multisets, for every legal history |
| `FreeRtosQueueHistory.FirstInFirstOut` | cores/host/freertos/FreeRTOS.h:275-278 | with sends to the back and no reset, what was sent is what was received followed by what is queued |
| `FreeRtosQueueHistory.RunsConserveItems` | cores/host/freertos/FreeRTOS.h:259-365 | the last two for every interleaving of any number of tasks |
| `FreeRtosQueueWaits.WaitsAreRespected` | cores/host/freertos/FreeRTOS.h:259-347 | in every run no call that waits for ever has failed, and no task sleeps in a call with no ticks to wait or in one whose wait has run out |
| `FreeRtosQueueWaits.BoundedCallsFailLate` | cores/host/freertos/FreeRTOS.h:259-347 | in every run a call with a bounded wait fails only after its time-out since the call, and once that is there the next decision is the end of it |
| `FreeRtosSemaphore.Semaphore.TakeLocked` | cores/host/freertos/FreeRTOS.h:414-441 | take inside the mutex, recursion test included; nothing changes unless it passes |
| `FreeRtosSemaphore.Semaphore.GiveLocked` | cores/host/freertos/FreeRTOS.h:449-465 | give inside the mutex; never past max_count |
| `FreeRtosSemaphore.NoLostWakeups` | cores/host/freertos/FreeRTOS.h:414-465 | for every kind of semaphore and every run: while a taker sleeps, each unit of the count has a notification to come or a woken taker |
| `FreeRtosSemaphore.CountingConserves` | cores/host/freertos/FreeRTOS.h:390-395 | for initial <= max: count = initial + gives - takes, between 0 and max |
| `FreeRtosSemaphore.MutualExclusion` | cores/host/freertos/FreeRTOS.h:396-465 | when only holders give: at most one task is between a take and its last give, count is 1 iff recursion is 0, recursion is the owner's unmatched takes |
| `FreeRtosSemaphore.StrangersGiveBreaksExclusion` | cores/host/freertos/FreeRTOS.h:449-465 | whenever a task holds a mutex, however deep, another's gives let a third task take it too |
| `FreeRtosSemaphore.StrangersGiveMiscounts` | cores/host/freertos/FreeRTOS.h:452-455 | on a recursive mutex a single such give leaves the recursion one short of the owner's unmatched takes |
| `FreeRtosSemaphore.DeepestTakeWraps` | cores/host/freertos/FreeRTOS.h:418-421 | the run of 2^32 takes by one task ends with count and recursion both 0: its next take would sleep, and one give would release the mutex |
| `FreeRtosSemaphoreHistory.AnswersAreAtomic` | cores/host/freertos/FreeRTOS.h:384-465 | every run of every kind of semaphore replays on one atomic counter: a take passes iff something is left, a give passes iff the maximum is not reached, a recursive mutex counts the takes of its holder; count, owner and recursion are what the counter says |
| `FreeRtosSemaphoreHistory.WaitsAreRespected` | cores/host/freertos/FreeRTOS.h:414-441 | in every run no take that waits for ever has failed, and nobody sleeps in a take with no ticks to wait or whose wait has run out |
| `FreeRtosSemaphoreHistory.BoundedTakesFailLate` | cores/host/freertos/FreeRTOS.h:414-441 | in every run a take with a bounded wait fails only after its time-out, and does not sleep again after it |
| `FreeRtosNotify.TaskSlot.TakeLocked` | cores/host/freertos/FreeRTOS.h:210-233 | sleeps, or returns the value and leaves 0 or one less |
| `FreeRtosNotify.NoLostNotification` | cores/host/freertos/FreeRTOS.h:197-233 | in every run the owner of the slot sleeps on a pending value only if some give has its notify_all still to make |
| `FreeRtosNotify.GivesAreConserved` | cores/host/freertos/FreeRTOS.h:197-233 | what is left is gives minus takes mod 2^32, and exactly that iff fewer than 2^32 are outstanding |
| `FreeRtosNotify.TakesAnswerPending` | cores/host/freertos/FreeRTOS.h:197-233 | in every run each take answers exactly what is pending and leaves 0 or one less; one that waits for ever never answers 0; nobody sleeps with no ticks to wait or after the time-out |
| `FreeRtosNotify.BoundedTakesGiveUpLate` | cores/host/freertos/FreeRTOS.h:210-233 | a take with a bounded wait answers 0 only after its time-out |
| `EspTimer.TimerSafety` | cores/host/esp_timer.h:100-183 | in every interleaving: callbacks are committed to only while running and due; no runner sleeps past a change without a notify to come; after a stop at most one committed callback still begins; one-shot callbacks never outnumber starts |
| `EspTimer.CallbacksAreSpaced` | cores/host/esp_timer.h:100-137 | in every run: a callback that follows another with no start between begins a period after that one has ended, and nothing is committed to or begun before the expiry of a start made outside a callback, each as long as the target is below 2^63 |
| `EspTimer.SpacedAt` | cores/host/esp_timer.h:126-132 | the spacing read off two callbacks of the history: the first was periodic, its end lies between, and the second begins a period after that end |
| `EspTimer.StartIsServedIffIdle` | cores/host/esp_timer.h:124-135 | for the last start of every run: its fields stand until the runner has the mutex back after a callback, and by then it has been served iff it was not made during a callback; one made during a callback is overwritten, the timer stopping for good after a one-shot's and firing a period later after a periodic one's |
| `EspTimer.StartIsOnTimeIff` | cores/host/esp_timer.h:109-122 | a start made outside a callback is served no earlier than its expiry on every schedule iff the expiry is below 2^63 |
| `EspTimer.FarStartFiresAtOnce` | cores/host/esp_timer.h:109-122 | the schedule on which it begins at once otherwise, from wherever the runner is |
| `EspTimer.FarRearmFiresAtOnce` | cores/host/esp_timer.h:131-132 | a rearm at or past 2^63 likewise |
| `HttpUrl.Fields.ParseURL` | cores/host/HTTPClient.h:487-523 | the in-place parser leaves the fields of the specification, on failure too |
| `HttpUrl.ParsedIsCanonical` | cores/host/HTTPClient.h:487-523 | a successful parse yields a non-empty host without `/` or `:`, a 16-bit port and a uri starting with `/` |
| `HttpUrl.UrlRoundTrip` | cores/host/HTTPClient.h:100-110 | parsing what begin(host, port, uri, https) builds recovers all four iff the host is non-empty and free of `/` and `:` and the uri starts with `/` (section 3 of RFC 3986) |
| `HttpUrl.RelativeResolves` | cores/host/HTTPClient.h:297-316 | a relative Location resolves to the same scheme, host and port, with the uri the Location itself or the Location put after the current directory; `//host`, `?q` and `..` are plain text to it, unlike in section 5.2 of RFC 3986 |
| `HttpUrl.ResolveRoundTrip` | cores/host/HTTPClient.h:297-316 | and does so iff it holds no `://` past its start |
| `HttpUrl.RootRelativeWithSchemeFails` | cores/host/HTTPClient.h:301-302 | a root-relative Location with `://` past its start makes the parse fail |
| `HttpUrl.AbsoluteResolves` | cores/host/HTTPClient.h:297-302 | an absolute Location leads to the URL it spells, whatever the base |
| `HttpUrl.RelativeReplacesName` | cores/host/HTTPClient.h:303-316 | a path-relative Location replaces what follows the last `/` of the current uri |
| `HttpUrl.SchemeInAnyCase` | cores/host/HTTPClient.h:487-504 | a scheme in any mixture of upper and lower case parses like the lower-case one |
| `HttpUrl.DefaultsAre` | cores/host/HTTPClient.h:506-523 | without a port it is 80 for http and 443 for https, without a path the uri is `/` |
| `HttpUrl.FindStringIsFirst` | cores/host/WString.h:187-208 | indexOf of a string gives its first occurrence, and -1 exactly when there is none |
| `HttpRedirect.HttpClient.Begin` | cores/host/HTTPClient.h:65-88 | accepted iff the URL parses and https has TLS; headers are cleared either way |
| `HttpRedirect.HttpClient.OneHop` | cores/host/HTTPClient.h:178-226 | one pass of the loop sends one request and either stops with its code or prepares the next request |
| `HttpRedirect.HttpClient.SendRequest` | cores/host/HTTPClient.h:164-228 | the loop with its uint16 counter sends the specified chain of requests and returns its code, limit 65535 included |
| `HttpRedirect.AtMostLimitPlusOne` | cores/host/HTTPClient.h:174-198 | at least one and at most limit + 1 requests for every server |
| `HttpRedirect.EachLink` | cores/host/HTTPClient.h:178-226 | any two consecutive requests are linked by the answer in between |
| `HttpRedirect.FollowedIff` | cores/host/HTTPClient.h:178-225 | an answer is followed iff it is 301, 302, 303, 307 or 308 with a Location, FORCE or STRICT admits the verb, the client is owned, the limit is not reached and the connection can be made |
| `HttpRedirect.FollowUpIs` | cores/host/HTTPClient.h:200-225 | 307 and 308 keep verb and payload; 301, 302 and 303 in FORCE after any verb but GET and HEAD make a GET with no payload; STRICT, GET and HEAD keep both; the target is where the Location leads, without added headers |
| `HttpRedirect.AbsoluteTarget` | cores/host/HTTPClient.h:219-225 | an absolute Location is connected to, unless it is https and there is no TLS |
| `HttpRedirect.LinkTarget` | cores/host/HTTPClient.h:211-225 | the next target is canonical and, for a relative Location, on the same server |
| `HttpRedirect.VerbsAndPayloads` | cores/host/HTTPClient.h:200-225 | the verb repeated and then GETs, the payload dropped exactly with the verb, added headers on the first request only; STRICT, GET and HEAD never change (section 15.4 of RFC 9110) |
| `HttpRedirect.LastCode` | cores/host/HTTPClient.h:180-225 | the code is the last answer's, and -1 iff that one was to be followed below the limit and no connection could be made |
| `HttpBody.Client.ReadHTTPLine` | cores/host/HTTPClient.h:569-588 | byte by byte, a line without its CR LF, or what is left at the close |
| `HttpBody.Client.AppendBytes` | cores/host/HTTPClient.h:470-485 | appends each 256-byte stage up to its first NUL |
| `HttpBody.Client.ReadChunk` | cores/host/HTTPClient.h:363-375 | exactly the chunk's bytes whatever the read sizes, or all there is and incomplete |
| `HttpBody.Client.SkipTrailers` | cores/host/HTTPClient.h:354-362 | consumes trailer lines through the blank one |
| `HttpBody.Client.GetStringChunked` | cores/host/HTTPClient.h:341-380 | for every fragmentation, returns the decoded payload (NUL-free) and leaves what the decoding leaves |
| `HttpBody.Client.GetStringSized` | cores/host/HTTPClient.h:382-406 | exactly Content-Length bytes, or all up to the close, the rest unread |
| `HttpBody.DecodeUndoesEncode` | cores/host/HTTPClient.h:341-380 | decoding undoes chunked encoding with any size spelling, extensions and trailers, consuming exactly the encoding (section 7.1 of RFC 9112) |
| `HttpBody.ReceiveEncoded` | cores/host/HTTPClient.h:335-380 | getString on the encoding of NUL-free chunks returns their concatenation for every fragmentation and leaves what follows unread |
| `HttpBody.TruncatedIsKept` | cores/host/HTTPClient.h:363-375 | when the peer closes inside a chunk, the chunks before it and what arrived of it are the body |
| `HttpBody.ChunksAreKept` | cores/host/HTTPClient.h:344-353 | when it closes between chunks, the chunks that came are the body |
| `HttpBody.LineAfterChunkIsDropped` | cores/host/HTTPClient.h:376-377 | whatever line follows the data of a chunk is dropped, not only an empty one |
| `HttpBody.BlankLineEnds` | cores/host/HTTPClient.h:344-353 | an empty line in place of a size ends the body there |
| `HttpBody.BodyExactIffNulFree` | cores/host/HTTPClient.h:470-485 | appending the reads gives the bytes back iff they hold no NUL |
| `HttpBody.FragmentationShows` | cores/host/HTTPClient.h:470-485 | with a NUL the same bytes in other pieces give another body |
| `HttpBody.CutAtNul` | cores/host/HTTPClient.h:470-485 | a read of up to 256 bytes counts up to its first NUL |
| `HttpBody.StagesAre` | cores/host/HTTPClient.h:470-485 | longer data goes through in stages of 256 bytes, each on its own |
| `HttpExchange.BuildRequest` | cores/host/HTTPClient.h:241-269 | the text sent is the specification's lines, each ended by CR LF, and the empty one; what they say to a server is `HttpServer.SendRequest` |
| `HttpExchange.RequestIsRead` | cores/host/HTTPClient.h:241-280 | reading lines up to the empty one gives those lines back and leaves exactly the payload, for fields without line breaks |
| `HttpExchange.EqualsIgnoreCase` | cores/host/HTTPClient.h:452-468 | the loop compares names up to the case of A to Z |
| `HttpExchange.TrimInPlace` | cores/host/WString.h:258-269 | the index loops strip white space at both ends |
| `HttpExchange.Reply.ReadResponseHead` | cores/host/HTTPClient.h:525-567 | code, fields and unread wire are the specification's, bad status lines included |
| `HttpExchange.HeadRoundTrip` | cores/host/HTTPClient.h:525-567 | reading a head undoes writing it: the code, what the headers declare whatever the case of their names, the last of a name counting, and exactly the body left |
| `HttpExchange.ReceiveChunked` | cores/host/HTTPClient.h:335-380 | a whole chunked response for every fragmentation: code, Location, payload, and what follows left on the wire |
| `HttpExchange.ReceiveSized` | cores/host/HTTPClient.h:382-406 | and one with a declared length |
| `HttpServer.SendRequest` | cores/host/HTTPClient.h:241-280 | on the wire of a request whose verb and uri hold no spaces, splitting the first line at its spaces gives verb, uri or `/`, and `HTTP/1.1`; splitting the others at their first colon and trimming gives a Host that parses to host and port, the User-Agent, `Connection: close`, a Content-Length with the value of the payload's length iff there is a payload, and the added headers in order; the payload follows (section 3 of RFC 9112) |
| `HttpServer.SameNameIffLower` | cores/host/HTTPClient.h:452-468 | names are the same iff their lower-case spellings are |
| `HttpServer.TrimIs` | cores/host/WString.h:258-269 | trim drops exactly the white space at both ends |
| `HttpServer.LastSaid` | cores/host/HTTPClient.h:548-566 | of several headers of one name, in any case of its letters, the last one sets length and Location |
| `HttpServer.NotSaid` | cores/host/HTTPClient.h:527-530 | without such a header they are -1 and empty |
| `HttpServer.ChunkedIffSaid` | cores/host/HTTPClient.h:556-562 | the body is chunked iff some Transfer-Encoding has `chunked` in it, in any case of the letters |
| `HttpServer.StatusWithoutReason` | cores/host/HTTPClient.h:531-541 | the code is read from a status line without a reason phrase too |
| `HttpServer.NoServer` | cores/host/HTTPClient.h:531-536 | a status line that does not begin with `HTTP/` or has no space gives -7 and nothing more is read |
| `HttpServer.NoCode` | cores/host/HTTPClient.h:537-541 | a code that is not positive gives -7 |
| `HttpServer.ReceiveToClose` | cores/host/HTTPClient.h:382-406 | without a length and chunks the body is everything up to the close, for every fragmentation |
| `HostInterrupt.InterruptTable.ResetAll` | cores/host/HostInterrupt.cpp:175-178 | every slot is empty |
| `HostInterrupt.InterruptTable.TriggerInterrupt` | cores/host/HostInterrupt.cpp:139-173 | in place and re-entrant, the specified state and log; true iff something was attached |
| `HostInterrupt.InterruptTable.RunHandler` | cores/host/HostInterrupt.cpp:160-164 | a handler's calls into the port, one after the other |
| `HostInterrupt.HandlersAreBracketed` | cores/host/HostInterrupt.cpp:139-173 | for every family of handlers: the log is a balanced word, every Enter calls the handler registered at that moment, fires grows by the Enters mod 2^32 without a reset, and the depth is restored iff it was 0 or nothing zeroed it, and 0 otherwise |
| `HostInterrupt.DepthRestored` | cores/host/HostInterrupt.cpp:156-170 | nesting within 255 and no reset inside suffice for that |
| `HostInterrupt.DepthRestoredIff` | cores/host/HostInterrupt.cpp:156-170 | when no handler detaches or resets and every triggered pin is attached, the depth is restored iff it was 0 or the nesting stays within 255 |
| `HostInterrupt.DeepNestingLosesDepth` | cores/host/HostInterrupt.cpp:156-170 | on an attached pin at depth d > 0, 256 - d nested triggers leave depth 0 |
| `HostInterrupt.AttachLeaves` | cores/host/HostInterrupt.cpp:47-84 | attaching sets mode, handler and the trigger that the mode means, by its number, keeps the counts and reports the slot; out of range or without a handler it does nothing |
| `HostInterrupt.DetachLeaves` | cores/host/HostInterrupt.cpp:86-102 | detaching blanks mode, trigger and handler, keeps the counts and reports the slot; an unattached pin is left alone |
| `HostInterrupt.FireLeaves` | cores/host/HostInterrupt.cpp:139-173 | a trigger on any attached pin counts one fire and one level, reports it, calls the handler registered then, runs what it does on the port as it is, takes one level off whatever the depth then is, down to 0, and reports that last |
| `HostInterrupt.RunKeepsConsistent` | cores/host/HostInterrupt.cpp:69-178 | whatever handlers do, in whatever nesting: a pin that is not attached is blank, one that is has a handler and the trigger of its mode |
| `HostBusTables.AnalogTables.Reset` | cores/host/HostBus.cpp:130-144 | every slot and default is the reset one |
| `HostBusTables.AnalogTables.ChannelOwner` | cores/host/HostBus.cpp:193-205 | the search loop finds the specified owner |
| `HostBusTables.AnalogTables.FirstFreeChannel` | cores/host/HostBus.cpp:262-270 | the search loop finds the specified channel |
| `HostBusTables.AnalogTables.Attach` | cores/host/HostBus.cpp:226-258 | state and answer of an attach to a given channel |
| `HostBusTables.AnalogTables.LedcAttach` | cores/host/HostBus.cpp:422-429 | state and answer of an attach to a free channel |
| `HostBusTables.AnalogTables.LedcWriteChannel` | cores/host/HostBus.cpp:436-452 | every pin on the channel is written in order; true iff there is one |
| `HostBusTables.AnalogTables.LedcWriteNote` | cores/host/HostBus.cpp:475-488 | the note's frequency by halving the top octave; bad notes are refused |
| `HostBusTables.AnalogTables.AnalogWrite` | cores/host/HostBus.cpp:623-634 | in place, the attach on first use and then the write, as specified; what that leaves is `HostBusCalls.AnalogWriteLeaves` |
| `HostBusTables.AnalogTables.PlayTone` | cores/host/HostBus.cpp:708-731 | one tone at a time; a timed note is followed by its silence |
| `HostBus.OwnerIsLowest` | cores/host/HostBus.cpp:186-205 | the owner is the lowest pin on the channel, or there is none |
| `HostBus.FirstFreeIsLowest` | cores/host/HostBus.cpp:260-270 | the free channel is the lowest nobody holds, or all are held |
| `HostBus.ReplayAgrees` | cores/host/HostBus.cpp:226-281 | after any calls from reset the last event of each pin is its slot, an unreported pin is as reset left it, and LEDC slots have a channel below 16, a frequency and 1..20 bits, others no channel |
| `HostBus.UnreportedIsUnchanged` | cores/host/HostBus.cpp:417-744 | a call changes no pin that it does not report |
| `HostBus.RefusedIffSilent` | cores/host/HostBus.cpp:417-703 | a call that answers no reports nothing and changes nothing, one that answers yes reports; the one exception is a tone of frequency 0 on an attached pin |
| `HostBus.AttachTakesLowest` | cores/host/HostBus.cpp:422-429 | a valid request for a pin not on LEDC gets the least unowned channel with its own settings, and fails iff all sixteen are owned |
| `HostBus.SharingAdopts` | cores/host/HostBus.cpp:243-251 | a pin joining a held channel gets the settings of the lowest pin on it |
| `HostBus.ChannelsAreDistinct` | cores/host/HostBus.cpp:226-270 | without ledcAttachChannel no two pins share a channel |
| `HostBus.AtMostSixteen` | cores/host/HostBus.cpp:226-270 | and at most sixteen pins are attached |
| `HostBus.SharingIffHeld` | cores/host/HostBus.cpp:417-420 | ledcAttachChannel makes two pins share iff it is accepted for a held channel |
| `HostBus.NoToneUndoesTone` | cores/host/HostBus.cpp:708-744 | after tone and noTone on a pin that could be attached: off LEDC, no other pin moved, every channel owned or free as before, and the events are attach, tone, the silence of a timed note, silence, detach |
| `HostBus.ToneIsExclusive` | cores/host/HostBus.cpp:708-744 | from the moment a pin plays until its own noTone, over any calls, it keeps the tone, and the run is the same as without the tone and noTone calls for other pins |
| `HostBus.OnlyItsPin` | cores/host/HostBus.cpp:417-744 | a call for one pin leaves every other pin's slot alone |
| `HostBus.ChannelWriteReachesAll` | cores/host/HostBus.cpp:436-452 | a channel write gives every pin on the channel the duty, clamped to that pin's resolution, and changes nothing else of any pin |
| `HostBusCalls.AnalogWriteLeaves` | cores/host/HostBus.cpp:623-634 | a pin on LEDC gets one Write event whose duty is the value as a 32-bit number if that is below 2^bits - 1 or there is one bit, and 2^bits otherwise; any other pin is first attached, with the default frequency and bits, to the lowest channel nobody holds, and only if that is refused does nothing happen |
| `HostBusCalls.FirstWriteAfterReset` | cores/host/HostBus.cpp:130-144 | after a reset the log of an analogWrite reads: attach to channel 0 at 1000 Hz and 8 bits, then the duty, 256 from 255 on |
| `HostBusCalls.LedcWriteLeaves` | cores/host/HostBus.cpp:272-281 | ledcWrite leaves that duty on a pin on LEDC and nothing else |
| `HostBusCalls.LedcFadeLeaves` | cores/host/HostBus.cpp:545-561 | a fade is two writes, of where it starts and where it ends |
| `HostBusCalls.LedcWriteChannelLeaves` | cores/host/HostBus.cpp:436-452 | one Write for each pin on the channel in ascending order, with the duty clamped to its own bits, and for no other; yes iff there is one |
| `HostBusCalls.LedcWriteToneLeaves` | cores/host/HostBus.cpp:454-473 | frequency as asked, 10 bits, duty 511; 0 Hz is a Write of duty 0 |
| `HostBusCalls.LedcWriteNoteLeaves` | cores/host/HostBus.cpp:475-488 | the tone of the octave-8 frequency of the note divided by 2 for every octave below |
| `HostBusCalls.LedcAttachLeaves` | cores/host/HostBus.cpp:422-429 | on the lowest channel nobody holds, with the settings asked for, duty and inversion kept; refused iff the pin is on LEDC, a setting is out of range or all channels are held |
| `HostBusCalls.LedcAttachChannelLeaves` | cores/host/HostBus.cpp:226-258 | the settings asked for on a channel nobody holds, those of its lowest pin on a held one |
| `HostBusCalls.LedcDetachLeaves` | cores/host/HostBus.cpp:508-520 | no channel, duty 0, not inverted, settings kept |
| `HostBusCalls.LedcChangeFrequencyLeaves` | cores/host/HostBus.cpp:522-532 | frequency and bits as asked, all else kept; out of range or off LEDC answers 0 and does nothing |
| `HostBusCalls.LedcOutputInvertLeaves` | cores/host/HostBus.cpp:534-543 | the inversion as asked, all else kept |
| `HostBusCalls.AnalogWriteFrequencyLeaves` | cores/host/HostBus.cpp:636-653 | an attached pin gets the frequency and the default bits; the default follows unless the pin refuses |
| `HostBusCalls.AnalogWriteResolutionLeaves` | cores/host/HostBus.cpp:655-668 | an attached pin gets the default frequency and the bits; the default follows unless the pin refuses |
| `HostBusCalls.DacOutputLeaves` | cores/host/HostBus.cpp:677-688 | no channel, 0 Hz, 8 bits, the level as duty, in one Dac event |
| `HostBusCalls.DacOffLeaves` | cores/host/HostBus.cpp:690-704 | only a DAC pin is detached, with duty 0 |
| `HostBusCalls.ToneAgainLeaves` | cores/host/HostBus.cpp:722-731 | tone on the pin that plays is one more tone, and the silence of a timed one, as long as the pin is on LEDC |
| `HostBusCalls.ToneNeedsAChannel` | cores/host/HostBus.cpp:708-721 | a first tone at 0 Hz, on a pin on LEDC or with all channels held has no effect |
| `HostBusCalls.NoToneLeaves` | cores/host/HostBus.cpp:733-744 | silence and detach if the pin that plays is on LEDC, the tone free again in any case; on another pin nothing |
| `StreamFind.Stream.FindUntil` | cores/host/Stream.h:95-132 | the two incremental matchers give the specified answer and stream position |
| `StreamFind.FoundIsThere` | cores/host/Stream.h:95-132 | true implies that the last of the bytes consumed by the call are the target, from any position |
| `StreamFind.DistinctFirstRepeats` | cores/host/Stream.h:119-129 | a pattern whose first character does not recur loses nothing to the fallback |
| `StreamFind.FindUntilIsExact` | cores/host/Stream.h:95-132 | for patterns that lose nothing, from any position: true iff in what is still to be read the first target ends strictly before the first terminator, having consumed exactly up to its end |
| `StreamFind.FindIsCompleteIffRepeats` | cores/host/Stream.h:87-132 | find succeeds on every input holding the target iff the target loses nothing to the fallback |
| `StreamFind.MissedIsMissed` | cores/host/Stream.h:123-130 | for every target that does lose something, an input holding it that find misses |
| `Numbers.FormatUnsigned` | cores/host/WString.h:302-316 | the loop prints the digits of the number |
| `Numbers.FormatSigned` | cores/host/WString.h:317-325 | decimal with a sign, other bases of the 64-bit pattern |
| `Numbers.PrintedValue` | cores/host/WString.h:302-316 | for bases 2..36: digits of the base, positional value the number, no leading zero |
| `Numbers.PrintedInUpperCase` | cores/host/WString.h:302-316 | every digit printed is 0 to 9 or A to Z |
| `Numbers.ParsedDigits` | cores/host/WString.h:271 | strtol reads the positional value of any run of digits, saturated |
| `Numbers.ParsedDecimal` | cores/host/WString.h:271 | toInt undoes decimal printing for every long and saturates beyond |
| `Numbers.LeadingSpaces` | cores/host/WString.h:271 | leading white space is passed over |
| `Numbers.PlusSign` | cores/host/WString.h:271 | a plus sign changes nothing |
| `Numbers.HexPrefix` | cores/host/HTTPClient.h:352 | in base 16 a `0x` or `0X` before a digit is part of the number |
| `Numbers.NoNumber` | cores/host/WString.h:271 | where no number begins the answer is 0 |
| `Numbers.TokenStream.ReadToken` | cores/host/Stream.h:183-208 | the token and the unread rest are the specification's |
| `Numbers.TokenStream.ParseInt` | cores/host/Stream.h:158-167 | the token's value, the same rest |
| `Numbers.ParseIntUndoesPrinting` | cores/host/Stream.h:158-208 | parseInt after any junk recovers every printed long and consumes through the delimiter |
| `Numbers.SkippingIsRemoving` | cores/host/Stream.h:183-208 | skipping a character gives the token of the stream with that character taken out |
| `Numbers.ParseIntSkips` | cores/host/Stream.h:158-167 | so parseInt with a skip character reads a printed long with that character strewn in anywhere |
| `Deadlines.Sketch.Delay` | cores/host/HostRuntime.h:105-112 | the deadline loop reads, compares and waits as specified, on every clock whose waits move it and which may run on between readings |
| `Deadlines.Sketch.ReadTimed` | cores/host/Stream.h:28-40 | poll, wait, compare: the specified byte or -1 and the specified state |
| `Deadlines.Sketch.FillBytes` | cores/host/Stream.h:56-67 | the specified bytes and state |
| `Deadlines.WaitUntilEnds` | cores/host/HostRuntime.h:105-112 | on every such clock delay ends, not before its deadline unless stopped, not going on past a stop, no wait begins after the deadline, and there is at most one wait for every microsecond |
| `Deadlines.DelayIsExact` | cores/host/HostRuntime.h:105-112 | on an exact clock delay(ms) makes ms waits and ends ms milliseconds later iff its deadline does not wrap |
| `Deadlines.ReadIsFifo` | cores/host/Stream.h:28-40 | a timed read loses, invents and reorders nothing, found or not |
| `Deadlines.FailureIsQuiet` | cores/host/Stream.h:28-40 | a failing read has reached its deadline and saw nothing at any poll; what came in the last wait is left unread |
| `Deadlines.SuccessIsPrompt` | cores/host/Stream.h:28-40 | one that succeeds does so at once when there is a byte, and otherwise at the first poll after the wait that brought one, before the deadline |
| `Deadlines.FailureIsExact` | cores/host/Stream.h:28-40 | on an exact clock it makes max(1, timeout) waits iff the deadline does not wrap or one wait is all it asked for |
| `Deadlines.ReadBytesIsFifo` | cores/host/Stream.h:56-67 | what is read and what is left are what was there and what arrived, in order |
| `Deadlines.ShortIsQuiet` | cores/host/Stream.h:56-67 | readBytes is short only after max(1, timeout) consecutive empty polls at the end |
| `HostUart.HostUart.Report` | cores/host/HostUart.h:290-295 | the hook records and may push from inside the notification |
| `HostUart.HostUart.WriteByte` | cores/host/HostUart.cpp:67-83 | the byte is queued and reported, or refused with the flag set |
| `HostUart.HostUart.WriteBuffer` | cores/host/HostUart.cpp:85-109 | the accepted prefix is queued and reported |
| `HostUart.HostUart.Read` | cores/host/HostUart.cpp:117-133 | the oldest byte, reported after it is taken |
| `HostUart.HostUart.Flush` | cores/host/HostUart.cpp:144-158 | the unread bytes are dropped and reported as discarded |
| `HostUart.HostUart.SetRxBufferSize` | cores/host/HostUart.cpp:160-171 | the oldest bytes are kept, a cut sets the flag |
| `HostUart.HostUart.SetTxBufferSize` | cores/host/HostUart.cpp:173-184 | the same for the transmit side |
| `HostUart.HostUart.ReadTx` | cores/host/HostUart.cpp:192-204 | the oldest bytes, in order |
| `HostUart.HostUart.PushRx` | cores/host/HostUart.cpp:224-241 | the prefix that fits is queued, the rest refused with the flag set |
| `HostUart.RunsAreAccounted` | cores/host/HostUart.cpp:13-273 | in every run with every hook: queues within their limits, totals the counts mod 2^32, a flag set iff a byte was refused or cut off since the last clear, and the reported bytes match the driver's exactly iff none was dropped silently |
| `HostUart.UartHistory` | cores/host/HostUart.cpp:67-241 | without begin, end, clear or a shrink: reported sent = drained + queued, and reported taken or discarded + queued = accepted |
| `HostUart.ClearingBreaksHistory` | cores/host/HostUart.cpp:218-222 | a clear loses a byte that was reported sent |
| `HostUartCalls.CallsLeave` | cores/host/HostUart.cpp:13-273 | for every call, state and hook: begin and end empty both queues, a write and a push take the longest prefix that fits and set the flag iff something is refused, read and flush hand out the oldest byte and the discarded ones, a resize sets the limit asked for, at least 1, and cuts the newest bytes, totals advance mod 2^32, and the notification, its kind and its bytes are exactly these, the hook's answer pushed after it |
| `Console.Runtime.AppendOutput` | cores/host/HostRuntime.cpp:412-428 | the three branches keep the last limit characters |
| `Console.Runtime.SendToClient` | cores/host/HostRuntime.cpp:430-470 | the retry loop terminates with the specified outcome |
| `Console.Runtime.SerialWrite` | cores/host/HostRuntime.cpp:812-831 | buffered, then sent when there is a client |
| `Console.Runtime.FlushToClient` | cores/host/HostRuntime.cpp:518-529 | the whole buffer is sent to the new client, if the accept loop found one |
| `Console.SendDelivers` | cores/host/HostRuntime.cpp:430-470 | everything in order, or a prefix and the stop flag; at most 1001 attempts for each byte |
| `Console.ConsoleDelivers` | cores/host/HostRuntime.cpp:412-529 | over every run and socket: the buffer is the last limit characters ever written, and the client got what fell between accept and flush, the retained suffix, and every later write, or a prefix of that once stopped |
| `Console.EachByteOnce` | cores/host/HostRuntime.cpp:496-529 | with nothing written between accept and flush, the retained pre-connect suffix and every later write, each once and in order |
| `Console.InOrderIffNothingBetween` | cores/host/HostRuntime.cpp:496-529 | an unstopped client gets the retained suffix and then every later write in order iff nothing was written between accept and flush or nothing is retained; otherwise the last character written there arrives twice |
| `Console.PatientClientGetsAll` | cores/host/HostRuntime.cpp:430-529 | with a socket that never fails and never would block more than 1000 times in a row, a client accepted after some writes and flushed to after some more gets these, the retained suffix of both, and every later write, and the stop flag stays down |
| `Console.BlockedForGood` | cores/host/HostRuntime.cpp:452-470 | 1001 times in a row would block raise the stop flag with nothing more sent |
| `Console.FirstAttempt` | cores/host/HostRuntime.cpp:439-470 | an error or a closed socket stops at once, a stop asked for elsewhere makes no attempt, and up to 1024 characters go out in one |
| `Console.OneChunk` | cores/host/HostRuntime.cpp:439-451 | an attempt hands over no more than 1024 characters, and what the socket took of them has been sent when the next attempt fails |
| `Paths.SanitizePath` | cores/host/FS.h:216-248 | the index scan computes split, filter and join |
| `Paths.SanitizedIsPlain` | cores/host/FS.h:216-248 | the result is empty iff there is a `..` or no name, and otherwise its components are the names of the input in order, none empty, `.` or `..`, no separator at either end |
| `Paths.SanitizeIsIdempotent` | cores/host/FS.h:216-248 | sanitizing twice is sanitizing once |
| `Paths.SameNamesSamePath` | cores/host/FS.h:216-248 | two spellings without `..` give one path iff they have the same names |
| `Paths.JoinOneMore` | cores/host/FS.h:93-112 | joinPath adds one component to a joined path |
| `Paths.SplitUndoesJoin` | cores/host/FS.h:93-112 | splitting a joined path gives its components back |
| `Paths.AnySpelling` | cores/host/FS.h:216-248 | components with any mixture of slashes and backslashes between them give the empty path if one is `..`, and otherwise those that are neither empty nor `.`, joined by single slashes; no backslash is left |
| `Paths.JoinPathNames` | cores/host/FS.h:93-112 | the names of a joined path are those of the first and then those of the second; a slash is added iff the first ends in no separator of either kind |

## Left out

- Null handles, buffers and strings: every function returns at once on them.
- Creation failures, thread creation and lifetime, `vTaskDelete`, tick counts, critical sections: wrappers over the host's threads and clocks.
- EspTimer.TimerSafety: does not model `esp_timer_delete` and the destructor, which set the stop flag without the lock and join.
- EspTimer.StartIsOnTimeIff: `remain` may overflow when a target past 2^63 is far enough behind the clock; the language leaves its value open, and so does the model, for which either branch may be taken.
- FreeRtosSemaphore.MutualExclusion: is stated for runs in which only holders give and nesting stays below 2^32 - 1, since the code checks neither.
- HttpBody.Client.GetStringChunked: does not model timed-out waits, after which a cut size line is read as a size; nor the 32-bit wrap of `millis()` in `waitData`.
- HttpRedirect.HttpClient.SendOnce: inside the redirect loop an exchange is a parameter with a code and a Location, and one that fails before anything is sent counts as a request too; `HttpExchange` models the text of an exchange by itself.
- HTTPClient with a client passed in by the caller: modelled only as never following a redirect.
- TLS, sockets, UDP, name lookup, process launching, info and log files.
- HostUart.UartHistory: the hook answers by `pushRx` only; `readTxString`, text pushes and the settings recorded by `setPins` and `updateBaudRate` add nothing to the queues.
- HostUart.HostUart.Report: the hook's answer is one push; several pushes in a row accept and refuse the same bytes as their concatenation.
- Two threads inside one UART at once: each call's locked part is one step here, as it is under its mutex.
- HostBus.ReplayAgrees: the hook only records; a hook that calls back in is not modelled.
- HostBusTables.AnalogTables.LedcFade: completion callbacks of fades are not called.
- Analog reads, GPIO levels, SPI, Wire, Preferences, the WiFi facade and gamma tables: they hold the last value set or hand a call on.
- Deadlines.DelayIsExact: exactness is stated for clocks that only waits move; ending and order hold for every clock whose waits move it.
- Deadlines.Sketch.ReadTimed: timedPeek is the same loop without taking the byte and is not repeated.
- Console.Runtime.FlushToClient: is called once in a run of the server thread, after the accept loop.
- Console.ConsoleDelivers: the input side, which is a plain FIFO, and the display build, which prints to the terminal, are not modelled.
- Paths.SanitizePath: models the POSIX branch of joinPath.
- makeDirectories and everything that touches real files: foreign calls.
- Numbers.FormatUnsigned: floats and the other formatting of `String` and `Print` are not modelled.
- Memory reuse and aliasing between handles: each object is modelled alone.
