# A verified model of the reactor library

This project models, in Dafny, the parts of the C++ reactor library whose
correctness is hard to see from reading one function at a time, and proves what
they promise. `dafny verify dfyconfig.toml` checks all of it.

**The reactor** (`Events`, `Demuxer`, `Timers`, `Machine`, `Lifecycle`, `Calls`,
`Timeouts`, `Order`, `Interest`, `Watched`, `Listening`, `Reactors`).  `Machine` is
the event loop as a step system: the reactor thread drains `wait_events_`, reads one
epoll batch, dispatches it, fires timers and shuts down, one small step at a time;
other threads post control events to the pipe at any moment; callbacks post them to
`wait_events_`; the kernel reports any readiness it may and refuses any ADD or MOD it
likes.  `Reactors` has the class itself, whose methods are proved to take runs of
that machine.  Over all runs: callbacks come in order, each from its own cause and
none out of nowhere; reported readiness is conserved until the handler has had its
callback; the dispatcher's tables agree, the mask table is the kernel's interest set,
the one-shot removal of WRITE interest really clears the bit, and every handler being
served is watched for input.  `Timers` is the deadline container, two maps against
one.

**The TCP output path** (`TcpOutput`, `WakeUp`).  The double buffer with its
per-message bookkeeping under arbitrary partial writes: no byte and no message is
lost, duplicated or reordered, and each completion comes exactly when its last byte
goes out.  `WakeUp` puts every TCP handler, its senders and the reactor together and
proves that unsent bytes never wait without something on its way to send them.

**Session timers** (`SessionTimer`, `TwoTimers`).  A session keeps its own timers
and lets the reactor know only the nearest.  `TwoTimers` composes the two levels:
the timeout of a registered session is never forgotten.

**WebSocket** (`Bytes`, `WebSockets`, `FrameBytes`, `WsStream`, `AcceptKey`,
`AcceptSample`).  Making and parsing frames (sections 5.2 and 5.3 of RFC 6455), byte
by byte and with the frames of its section 5.7, the incremental decoder, and the
answer to a client's key, with the one of its section 1.3.

**Digests and base64** (`Blocks`, `Sha1`, `Sha1Answers`, `Md5`, `Md5Answers`,
`Base64`).  The chunked, in-place algorithms against the functions of FIPS 180-1
(sections 4 to 7), RFC 1321 (sections 3.1 to 3.5) and RFC 4648 (section 4), and those
functions against the answers the standards give.

**HTTP/1.1** (`HttpText`, `HttpHeaders`, `Http1`, `Http1Laws`, `Http1RoundTrip`,
`Http1Bodies`, `Http1Stream`, `Http1Errors`, `Https1`).  The header with its index of
list iterators, printing and parsing, round trips, where a body ends with and without
a content-length, and the input loops of the server and the client.

## What is assumed

- A handler's removal and its interest in output are asked for after the call that
  registers it (`FreshCall`); timeouts may be set and unset for anybody at any time.
  `Lifecycle`, `Calls`, `Timeouts`, `Order` and `Interest` need no more.
- `send` and `set_output_event` reach the reactor through the handler's `reactor_`
  field, which is set when its registration is dispatched, so interest in output is
  asked for after that (`AttachedCall`).  `Watched`, `Listening`, `WakeUp` and
  `TwoTimers` need this, and `Listening.UnheardReached` shows what happens without.
- A descriptor number is registered again, for a new handler, only when nothing is
  left of its earlier use: no table entry and no event on its way
  (`Machine.Unused`).  With a number reused inside one batch, the deferred
  withdrawal at reactor/Reactor.cpp:54 could hit the new owner.
- epoll_ctl calls whose result the code ignores (DEL, and MOD in a removal) succeed
  on a present entry.  ADD, and MOD in a registration, may fail at any time.
- The control pipe is a FIFO of whole events without a capacity.
- Clock readings do not go backwards.  `char` is an 8-bit character of the C locale,
  sizes are below 2^64, and the machine is little-endian where bytes of words are
  looked at.

## What the code does that its callers may not expect

- A timer of 2^31 ms or more makes the minimum wait come out as 0 with nothing due
  (`Timers.SpuriousZeroIff`), so the loops that wait for a positive minimum spin.
  One missed by more than 2^31 ms can make it come out positive (`Timers.MissedIff`).
- An empty message sent alone is not reported (`TcpOutput.EmptyAloneWaits`) until
  bytes sent later begin to go out (`TcpOutput.AllReportedIff`,
  `TcpOutput.EmptyGoesFirst`).
- After a partial write the payload pointer given to handle_sent is wrong for the
  rest of the batch, and past the end of the buffer for its last message
  (`TcpOutput.PointerRightIff`, `TcpOutput.PointerPastTheEnd`,
  `TcpOutput.PointerExample`).
- `make` with an opcode of 16 or more writes a frame with another opcode
  (`WebSockets.RoundTrip`).
- A 64-bit WebSocket length near 2^64 makes the parser's sum wrap around.  Behind a
  masked header it then reads over its buffer (`WebSockets.OverrunIff`); behind an
  unmasked one it returns a frame of up to nine bytes (`WebSockets.ShortFrameIff`),
  and for 2^64 - 10 a frame of none, which the decoding loop takes out for ever
  (`WsStream.LoopEndsIff`, `WsStream.StuckNeverEnds`).
- `packet(true)` keeps a content-length that is already there: a header printed twice
  with different bodies makes a message that does not come back
  (`Http1RoundTrip.RoundTrip`, `Http1RoundTrip.PrintedAgain`).
- A response with a negative status is printed with its sign, which no parser takes
  (`Http1RoundTrip.StatusLineIff`, `Http1RoundTrip.NegativeIsError`).
- The HTTP client keeps its buffer at a malformed response and never recovers
  (`Http1Errors.ClientStuckIff`, `Http1Errors.ClientStuckExample`); the server clears
  it.  Both lose what follows a message in the same input (`Http1Stream.RestIsLost`,
  `Http1Stream.BothHandedOnIff`).
- A message with neither content-length nor chunked coding is handed on as soon as its
  header is complete, with as much of the body as has come by then
  (`Http1Bodies.OpenHandedOn`, `Http1Bodies.OpenWholeIff`).
- The chunks of a chunked message are not taken apart, and their terminator is looked
  for in the last 1000 bytes only (`Http1Bodies.ChunkedBodyIs`,
  `Http1Bodies.ChunkedExample`).

## Model

| member | source | states |
|---|---|---|
| Demuxer.IoHandleDemuxer.RaiseEvent | reactor/IoHandleDemuxer.h:275-297 | An event is refused only for the invalid handle and only below the user events; otherwise it is the new last element of exactly one queue: wait_events_ on the waiting thread, the pipe from any other. |
| Demuxer.IoHandleDemuxer.AddEpollEvent | reactor/IoHandleDemuxer.h:309-353 | Asking for one interest bit sets it in the mask table and in the kernel, or, when the kernel refuses, leaves both as they were (a changed entry is changed back, a new one erased). |
| Demuxer.IoHandleDemuxer.DelEpollEvent | reactor/IoHandleDemuxer.h:355-387 | Removal is an exclusive-or: the entry with the bit toggled in both tables, or no entry when nothing else is left. |
| Demuxer.IoHandleDemuxer.DelEpollEvents | reactor/IoHandleDemuxer.h:389-403 | The entry is gone from both tables. |
| Demuxer.IoHandleDemuxer.ProcessCtrlEvent | reactor/IoHandleDemuxer.h:405-428 | Both tables move by the event's case, for whatever the kernel answers to each epoll_ctl, and the event is handed back exactly when it asks for it. |
| Demuxer.ProcessKeepsAgreement | reactor/IoHandleDemuxer.h:309-428 | One control event keeps the user-space table equal to the kernel's interest set, whatever ADD and MOD answer. |
| Demuxer.ProcessIsLocal | reactor/IoHandleDemuxer.h:309-428 | A control event touches the entry of its own handle only. |
| Demuxer.ToggleClearsIff | reactor/IoHandleDemuxer.h:374-384 | The exclusive-or in a removal clears the bit if and only if there is no entry or the bit was set. |
| Demuxer.ProcessIs | reactor/IoHandleDemuxer.h:309-428 | The mask entry after each kind of control event, bit by bit: READ, WRITE or ERROR interest is granted unless the kernel refuses, which changes nothing; removing all leaves no entry; readiness and the reactor's own events change nothing. |
| Interest.TablesAlwaysAgree | reactor/IoHandleDemuxer.h:309-491 | In every run of the reactor the mask table equals the kernel's interest set. |
| Interest.RemoveWriteClears | reactor/Reactor.cpp:67-72 | In every run, even one in which a handler asks for output before its registration is dispatched, a processed REMOVE_WRITE meets no entry or a set WRITE bit, so that the bit is clear afterwards. |
| Interest.RemoveWriteStaysHome | reactor/IoHandleDemuxer.h:436-469 | A REMOVE_WRITE is processed from wait_events_ only: in any run, whatever the clients do, the pipe never carries one. |
| Interest.StepKeepsInv2 | reactor/Reactor.cpp:43-140 | The invariant behind the two results above: at most one reported WRITE readiness or pending removal per descriptor; while there is one the bit it stands for is set or the entry gone; a removal is never pending with the registration; and readiness ahead of the registration finds the entry in place until that has been read. |
| Order.StepInOrder | reactor/IoHandleDemuxer.h:275-297 | On whichever queues the calls are made and however they are read, no removal of a handler comes before its registration within the events processed together. |
| Order.StepQueues | reactor/IoHandleDemuxer.h:275-491 | Readiness stands in the batch only, and only while it is read and dispatched; the pipe carries calls of the public interface only. |
| Timers.AsInt32 | reactor/ObjectsTimer.h:77 | Conversion to int32_t is the identity on 32-bit values and stays within them. |
| Timers.AsInt32Keeps | reactor/ObjectsTimer.h:77 | The conversion keeps the number modulo 2^32. |
| Timers.DueIff | reactor/ObjectsTimer.h:127-129 | The extraction test means: less than one millisecond is left. |
| Timers.ObjectsTimer.Size | reactor/ObjectsTimer.h:143-148 | The number of different deadlines, 0 exactly when no object waits. |
| Timers.ObjectsTimer.GetMinTimeoutMilliseconds | reactor/ObjectsTimer.h:71-91 | -1 without timers, 0 when overdue, else the rest of the shortest wait squeezed into 32 bits. |
| Timers.ObjectsTimer.RegisterTimeout | reactor/ObjectsTimer.h:93-103 | The object's deadline in the one abstract map is replaced, both maps stay inverse, and the minimum of the new map is returned. |
| Timers.ObjectsTimer.RemoveTimeout | reactor/ObjectsTimer.h:105-110 | The object leaves the abstract map; the answer says whether it was there; no empty bucket stays. |
| Timers.ObjectsTimer.ExtractTimeoutObjects | reactor/ObjectsTimer.h:112-140 | The buckets are a prefix of the deadline order, in that order, each due at its own clock reading, and the first survivor is not due. |
| Timers.InverseKeys | reactor/ObjectsTimer.h:93-162 | With no empty bucket and both maps inverse, the first map's buckets are exactly the objects of each deadline. |
| Timers.ExtractionIsFirstOut | reactor/ObjectsTimer.h:112-140 | Listed one by one, what is extracted is the first part of the deadline order, all of it due and nothing due left behind. |
| Timers.Flatten | reactor/Reactor.h:199-201 | Walking the buckets lists every extracted object once, in the order of the deadlines. |
| Timers.ExtractionPartitions | reactor/ObjectsTimer.h:112-140 | Every object is either extracted or kept, never both, and none appears from nowhere. |
| Timers.NothingDueIsLeft | reactor/ObjectsTimer.h:125-137 | With a clock that does not run backwards, no object due before the extraction began is left behind. |
| Timers.ExtractedBeforeKept | reactor/ObjectsTimer.h:125-137 | Every extracted object has an earlier deadline than every object kept. |
| Timers.DrainProgress | tcp_reactor/TCPSessionHandler.cpp:81-87 | If the minimum was reported as 0 and the nearest deadline is below 2^31 ms away, the extraction is not empty and the timer shrinks. |
| Timers.SpuriousZeroIff | reactor/ObjectsTimer.h:77-83 | The minimum is reported as 0 with nothing due exactly when the remaining wait, cut to 32 bits, is not positive. |
| Timers.MissedIff | reactor/ObjectsTimer.h:77-83 | A positive wait is reported with a deadline already due exactly when it was missed by more than 2^31 ms and the cut to 32 bits turns the sign. |
| Timers.SpuriousZeroExample | reactor/ObjectsTimer.h:77-83 | A wait of 2^31 ms, which register_timeout accepts, is such a case. |
| Timers.MissedExample | reactor/ObjectsTimer.h:77-83 | A timeout of 0 ms looked at 2^31 + 1 ms later is due, and the wait reported is 2^31 - 1 ms. |
| Machine.FlowStep | reactor/IoHandleDemuxer.h:275-491 | Conservation of events: how each step changes the number of times an event is on its way (queued, in the pipe, announced by the kernel, in the batch). |
| Lifecycle.CallbacksAreOrderly | reactor/Reactor.cpp:43-140 | Over every run and interleaving: a handler is told of its registration first and once, of a hang-up at most once, and of its removal (or the shutdown) at most once with nothing after it, with duplicate removals and stale events in flight, and with descriptor numbers used again once nothing about them is left. |
| Lifecycle.RegisteredExactly | reactor/Reactor.cpp:83-140 | Until the shutdown, handlers_ holds exactly the handlers told of their registration and not of their removal, and handle_close_call_ exactly those told of a hang-up. |
| Lifecycle.TablesAgree | reactor/Reactor.cpp:20-140 | In every reachable state each timed handler and each close-marked descriptor is registered, and handler_count_ is the number of handlers. |
| Lifecycle.StepKeepsInv | reactor/Reactor.cpp:7-175 | Every step of the reactor, of another thread and of the kernel keeps the invariant of the lives, the tables and the registrations in flight. |
| Lifecycle.LifeMeansOrderly | reactor/Reactor.cpp:100-140 | A handler brought to some stage of its life by its callbacks has had them in the plain order. |
| Lifecycle.OrderlyIff | reactor/Reactor.cpp:100-140 | The callbacks of a handler come in the plain order if and only if they bring it to some stage. |
| Calls.CallIff | reactor/Reactor.cpp:43-140 | Every callback has its cause and every cause its callback: handle_input comes from a dispatched READ and nothing else, handle_output from WRITE, handle_error from ERROR, handle_close from a CLOSE not yet told, each for the handler registered under the descriptor; handle_registered, handle_removed, handle_timeout and handle_shutdown likewise from their own. No step makes two calls. |
| Calls.ReadinessConserved | reactor/IoHandleDemuxer.h:471-487 | Over every run and for each descriptor: as often as the kernel has reported READ, it is still on its way, was one handle_input, or met no handler when dispatched; the same for WRITE and handle_output, ERROR and handle_error, CLOSE and handle_close. |
| Calls.CalledWasReported | reactor/Reactor.cpp:60-96 | A handle_input in a run means that some epoll_wait of it reported input on that handler's descriptor; likewise output, error and hang-up. |
| Calls.ReadyUntilCalled | reactor/Reactor.cpp:60-96 | While a handler stays registered, readiness reported for its descriptor stays on its way until the handler gets the callback for it: handle_input for READ, handle_output for WRITE, handle_error for ERROR, and handle_close, unless already made, for CLOSE. |
| Calls.StaysUntilDispatched | reactor/IoHandleDemuxer.h:405-491 | An event that is to be handed back stays on its way, through queue, pipe and batch, until it is dispatched. |
| Calls.CallPosts | reactor/Reactor.h:107-177 | Which control event each public call posts, with which data, and on which queue; only the invalid handle is refused. |
| Calls.EmitInOrder | reactor/IoHandleDemuxer.h:471-486 | Of one descriptor READ is handed back before WRITE, ERROR and CLOSE. |
| Timeouts.TimerIs | reactor/Reactor.cpp:28-40 | A handler's deadline after each step: the clock reading plus the milliseconds asked for, cut to 32 bits, when its timeout is set; none when it is unset, removed, shut down or taken out as due; otherwise what it was. |
| Timeouts.TimeoutsAreSet | reactor/Reactor.cpp:28-40 | From any state on there are no more handle_timeout calls than the timeout has been set, and one if it was waiting. |
| Timeouts.TimeoutsWereSet | reactor/Reactor.cpp:28-40 | Over every run, handle_timeout is called at most once for each time the timeout was set. |
| Timeouts.UnsetIsQuiet | reactor/Reactor.cpp:35-39 | After a timeout has been unset the handler is not called for it until it is set again. |
| Timeouts.StopIs | reactor/Reactor.cpp:14-18 | The reactor begins to stop exactly when a stop event is dispatched, and goes on stopping. |
| Timeouts.AllAreTold | reactor/Reactor.cpp:142-175 | When the reactor has stopped, every handler ever told of its registration has been told of its removal or of the shutdown. |
| Watched.StepKeepsInv3 | reactor/Reactor.cpp:43-140 | Readiness is reported for attached handlers only, stale interest is withdrawn only after the handler has gone, and every mask entry belongs to a handler announced to the dispatcher; every step keeps this. |
| Watched.RegisteredUnwatched | reactor/Reactor.cpp:43-56 | When a descriptor number is registered again there is no readiness, no withdrawal and no mask entry left of its earlier use. |
| Listening.ServedIsRead | reactor/IoHandleDemuxer.h:309-353 | In every run the kernel watches for input every registered handler whose descriptor no epoll_ctl was refused for, whose removal nobody has asked for, while the reactor is not shutting down. |
| Listening.UnheardReached | reactor/Reactor.cpp:43-56 | Without the promise that output is asked for only once attached this fails: a run in which a handler is registered, never refused or removed, and not watched at all. |
| Reactors.Reactor.constructor | reactor/Reactor.h:88-105 | A new reactor is in the machine's start state. |
| Reactors.Reactor.Raise | reactor/Reactor.h:107-177 | Each public call posts its control event, on wait_events_ or on the pipe, and nothing once the reactor has stopped (stop itself excepted). |
| Reactors.Reactor.Process1 | reactor/IoHandleDemuxer.h:405-428 | One control event, with the kernel's answers, is the machine's control step. |
| Reactors.Reactor.Drain | reactor/IoHandleDemuxer.h:438-445 | Draining wait_events_ is a run of the machine, with other threads in between. |
| Reactors.Reactor.ReadPipeEvents | reactor/IoHandleDemuxer.h:456-469 | Reading any number of events from the pipe and processing them is a run of the machine. |
| Reactors.Reactor.Report | reactor/IoHandleDemuxer.h:471-486 | What one ready descriptor adds to the batch: READ, WRITE unless in error, ERROR, CLOSE. |
| Reactors.Reactor.ReadBatch | reactor/IoHandleDemuxer.h:451-487 | One epoll batch is a run of the machine. |
| Reactors.Reactor.Wait | reactor/IoHandleDemuxer.h:430-491 | wait is a run of the machine: the local queue first, and one epoll batch if it returned nothing. |
| Reactors.Reactor.DispatchReactorEvent | reactor/Reactor.cpp:7-41 | Stop, timeout-add and timeout-del change the registry as the machine's step does, for registered descriptors only. |
| Reactors.Reactor.DispatchDemuxerEventIo | reactor/Reactor.cpp:43-97 | Readiness becomes one callback, a one-shot REMOVE_WRITE before handle_output, a withdrawal for an unknown descriptor, and at most one handle_close. |
| Reactors.Reactor.DispatchDemuxerEventResult | reactor/Reactor.cpp:83-140 | A returned registration attaches the handler, a returned removal detaches it if it is still there. |
| Reactors.Reactor.DispatchBatch | reactor/Reactor.h:179-191 | dispatch is a run of the machine over the whole batch. |
| Reactors.Reactor.RunTimeoutHandler | reactor/Reactor.h:193-202 | The timer loses its first handlers in the order of the deadlines, all that were due at the start among them, and each of those is called exactly once, in that order, by a run of the machine. |
| Reactors.Reactor.RunShutdown | reactor/Reactor.h:228-244 | Each registered handler is taken off the timer, shut down and withdrawn, once. |
| Reactors.Reactor.RunOnce | reactor/Reactor.cpp:152-175 | One turn of the run loop is a run of the machine in which the clients keep their promise, so the machine's invariant holds of this object after it; it waits, or hands back control with a timer still reported overdue. |
| TcpOutput.TCPEventHandler.SendMessage | tcp_reactor/TCPEventHandler.h:166-182 | Refused without a reactor or after close; otherwise the bytes and one bookkeeping entry go to the prepared half and a WRITE event is asked for. |
| TcpOutput.TCPEventHandler.HasBufferToSend | tcp_reactor/TCPEventHandler.h:95-108 | True exactly when either buffer holds bytes; an empty send buffer is swapped with the prepared one, bookkeeping included. |
| TcpOutput.TCPEventHandler.Complete | tcp_reactor/TCPEventHandler.cpp:90-104 | The loop over the bookkeeping reports exactly the messages the bytes complete and leaves the next one short of the rest, whatever the callbacks send meanwhile. |
| TcpOutput.TCPEventHandler.HandleOutput | tcp_reactor/TCPEventHandler.cpp:47-111 | handle_output is one output step for whatever ::send answers, and after anything but a hard error it asks for another WRITE event. |
| TcpOutput.Conservation | tcp_reactor/TCPEventHandler.cpp:57-108 | For every sequence of sends and partial writes: wire, send buffer and prepared buffer are the accepted bytes in order; completed and pending ids are the order of sending; the remainders add up to the unsent bytes. |
| TcpOutput.CompletionExact | tcp_reactor/TCPEventHandler.cpp:90-104 | A non-empty message has been reported if and only if its last byte is out; a reported one has nothing left. |
| TcpOutput.CompletesInStep | tcp_reactor/TCPEventHandler.cpp:90-104 | handle_sent comes in the very handle_output that gets the message's last byte out, and for the right id. |
| TcpOutput.OnlyEmptyMessagesWait | tcp_reactor/TCPEventHandler.cpp:57-58 | With both buffers empty only empty messages are unreported, and handle_output leaves them so. |
| TcpOutput.AllReportedIff | tcp_reactor/TCPEventHandler.cpp:57-104 | From rest, after any messages sent and any calls of handle_output that empty both buffers again, every accepted message has been reported if and only if those messages had a byte between them (or there were none, and nothing was left over before). |
| TcpOutput.EmptyAloneWaits | tcp_reactor/TCPEventHandler.cpp:57-58 | An empty message sent alone: no number of calls of handle_output reports it. |
| TcpOutput.EmptyGoesFirst | tcp_reactor/TCPEventHandler.cpp:90-104 | Sent before a longer one, it is reported with that one's first byte. |
| TcpOutput.PointerRightIff | tcp_reactor/TCPEventHandler.cpp:88-102 | The payload pointer given to handle_sent is the message's place if and only if nothing has been erased since the buffers were swapped. |
| TcpOutput.PayloadIsMessage | tcp_reactor/TCPEventHandler.cpp:102 | Then the slice handed to handle_sent is the message itself. |
| TcpOutput.PointerPastTheEnd | tcp_reactor/TCPEventHandler.cpp:88-102 | The slice of the batch's last message runs past the buffer if and only if there has been an earlier partial write. |
| TcpOutput.PointerExample | tcp_reactor/TCPEventHandler.cpp:88-102 | Three bytes taken in two writes: handle_sent is given three bytes from where one is left. |
| TcpOutput.TakeKeeps | tcp_reactor/TCPEventHandler.cpp:87-104 | A partial write of any size keeps bytes, bookkeeping and reports in step with the order of sending. |
| TcpOutput.SendKeeps | tcp_reactor/TCPEventHandler.h:166-182 | So does a send. |
| WakeUp.TokenStep | reactor/Reactor.cpp:67-72 | What will bring the next handle_output of a served handler is given up only by making that callback. |
| WakeUp.NoLostWakeUp | tcp_reactor/TCPEventHandler.cpp:57-108 | No lost write wake-up, over every run of reactor, senders and kernel: bytes in either buffer of a served handler imply WRITE interest no queued removal will clear, a request for it that survives the queue, an undispatched WRITE event, a sender about to ask, or a handle_output that has yet to look or ask. |
| WakeUp.RestMeansWatched | reactor/IoHandleDemuxer.h:430-491 | So when nothing is queued and the reactor is about to wait, the kernel is watching the descriptor for output. |
| SessionTimer.TCPSessionHandler.SetTimeout | tcp_reactor/TCPSessionHandler.cpp:49-58 | The key is set to its deadline by a clock reading of this call, and the reactor is asked for the minimum of all keys at a later reading. |
| SessionTimer.TCPSessionHandler.UnsetTimeout | tcp_reactor/TCPSessionHandler.cpp:60-75 | The key goes if it was there; then the reactor is asked for the minimum of the keys left, or for none when no key is left; otherwise nothing is asked. |
| SessionTimer.TCPSessionHandler.HandleTimeout | tcp_reactor/TCPSessionHandler.cpp:77-94 | The keys called back are exactly those taken out, once each, in the order of the deadlines; every key due at the first reading is among them; and with all timeouts below 2^31 ms the loop ends by itself, whatever callbacks set and unset. |
| SessionTimer.TCPSessionHandler.TakeDue | tcp_reactor/TCPSessionHandler.cpp:81-83 | One round takes out, in the order of the deadlines, every key due when the minimum was read, and at least one unless a deadline lies 2^31 ms or more ahead. |
| SessionTimer.TCPSessionHandler.Leave | tcp_reactor/TCPSessionHandler.cpp:89-93 | At the end the reactor is asked for the minimum of the keys left, or for nothing if none is. |
| SessionTimer.NearestAlways | tcp_reactor/TCPSessionHandler.cpp:49-94 | After any operations but inside the drain loop, with keys waiting, the last thing asked of the reactor is the minimum of those keys. |
| SessionTimer.WaitMeetsNearest | reactor/ObjectsTimer.h:77-83 | That wait ends after no deadline and less than a millisecond before the first, unless a deadline is 2^31 ms away or more. |
| SessionTimer.CoveredAlways | tcp_reactor/TCPSessionHandler.cpp:49-94 | After any operations, keys are waiting only if the last thing asked of the reactor was a timeout. |
| SessionTimer.ExtractFacts | tcp_reactor/TCPSessionHandler.cpp:81-87 | When the minimum is 0 and nothing is taken out, some timeout was 2^31 ms or more; otherwise the keys get fewer. |
| TwoTimers.ComingStep | reactor/Reactor.cpp:26-40 | A timeout on its way to a registered session stays on its way, for as many milliseconds, until its callback begins; the reactor's entry counts from the dispatch of its ADD. |
| TwoTimers.NoLostTimeout | tcp_reactor/TCPSessionHandler.cpp:49-94 | No lost session timeout, over every run of the reactor and its sessions: a registered session with keys waiting has an ADD as the newest timer event in flight, or none in flight and an entry in the reactor's timer (or just taken from it), in either case for the minimum of its keys; or it is inside handle_timeout. |
| TwoTimers.RestMeansTimed | tcp_reactor/TCPSessionHandler.cpp:49-94 | So when the reactor goes to wait with nothing queued, its timer has an entry for every such session: the minimum of the session's keys at one clock reading, counted from a later one. |
| TwoTimers.EntryMeetsNearest | tcp_reactor/TCPSessionHandler.cpp:49-94 | That entry is no later than any of the session's deadlines plus the time its ADD was under way, and less than a millisecond before the first, with no deadline 2^31 ms away or more. |
| WebSockets.Make | websocket/WebSocket.cpp:13-91 | The buffer is the frame of section 5.2 for the given opcode, flag, key and payload, with the shortest of the three length forms, and the fields agree with it. |
| WebSockets.WriteLength | websocket/WebSocket.cpp:71-73 | The length bytes are the number in big-endian order. |
| WebSockets.WriteMasked | websocket/WebSocket.cpp:76-84 | The key, then the payload XORed with it cyclically. |
| WebSockets.Parse | websocket/WebSocket.cpp:93-164 | parse is the decoding function, whatever the two bytes behind a 2- or 3-byte buffer hold, sums of header and length that wrap around included. |
| WebSockets.ReadSize | websocket/WebSocket.cpp:108-132 | Which length form is read when; the 16-bit one without a check of the buffer's size. |
| WebSockets.PayloadToString | websocket/WebSocket.h:41-58 | The payload without its mask: only a masked frame made here is still masked. |
| WebSockets.RoundTrip | websocket/WebSocket.cpp:13-164 | parse(make(...) followed by anything) carries the same payload, mask flag and key, takes precisely the packet's bytes, and has the same opcode if and only if it is below 16. |
| WebSockets.ShortestForm | websocket/WebSocket.cpp:53-74 | No frame that parse accepts carries a payload of that size in a shorter form than make uses. |
| WebSockets.AnswerStays | websocket/WebSocket.cpp:93-164 | Once parse has an answer, more bytes do not change it. |
| WebSockets.FrameIsPrefix | websocket/WebSocket.cpp:144-163 | A frame takes up its own size, two bytes at least, and no byte beyond it matters, unless the sum of its header and length wraps around. |
| WebSockets.PrefixIncomplete | websocket/WebSocket.cpp:93-145 | Every strict prefix of a frame is incomplete, so the wrong-opcode exception is never thrown for one. |
| WebSockets.OverrunIff | websocket/WebSocket.cpp:144-160 | parse unmasks bytes behind the buffer exactly when a complete masked header announces a length within 14 of 2^64. |
| WebSockets.OverrunExample | websocket/WebSocket.cpp:144-160 | Fourteen bytes for which it does. |
| WebSockets.WrapFacts | websocket/WebSocket.cpp:144 | The sum of header and length wraps around only for a 64-bit length with its top bit set, which section 5.2 rules out, and comes out within the header. |
| WebSockets.ShortFrameIff | websocket/WebSocket.cpp:147-152 | parse returns a frame shorter than its header exactly when an unmasked header announces a length within 10 of 2^64, and the frame then has as many bytes as the length exceeds 2^64 - 10. |
| WebSockets.NoByteTakenIff | websocket/WebSocket.cpp:147-152 | parse returns a frame of no byte exactly when an unmasked header announces 2^64 - 10 bytes. |
| WebSockets.StuckSticks | websocket/WebSocket.cpp:147-152 | Ten bytes for which it does. |
| WebSockets.Unmasked | websocket/WebSocket.cpp:159-161 | Masking twice with a key is the identity. |
| FrameBytes.MadeBytes | websocket/WebSocket.cpp:13-91 | Every byte of a frame that make writes: the last-frame bit above the opcode, the mask bit above the length field, the length in 7, 16 or 64 bits with the highest byte first, the key, and payload byte i XORed with key byte i mod 4. |
| FrameBytes.ParsedBytes | websocket/WebSocket.cpp:93-164 | Of any buffer that parse accepts, without a wrapped sum: the flags and opcode are those bits of the first two bytes, the header is kept, and payload byte i is unmasked with byte i mod 4 of the four before the payload. |
| FrameBytes.ParsedPlace | websocket/WebSocket.cpp:97-142 | Where the payload begins and how long it is, from the header's bytes. |
| FrameBytes.WhichException | websocket/WebSocket.cpp:93-145 | The incomplete-header exception is thrown exactly while the second byte, a 64-bit length or the key is missing. |
| FrameBytes.StringBytes | websocket/WebSocket.h:41-58 | payload_to_string byte by byte: unmasked with key byte i mod 4 for a masked frame made here, as it lies otherwise. |
| FrameBytes.UnmaskedText | websocket/WebSocket.cpp:13-91 | The unmasked "Hello" of section 5.7 of RFC 6455, whole and in two fragments. |
| FrameBytes.MaskedText | websocket/WebSocket.cpp:75-84 | Its masked "Hello", and the masked pong. |
| FrameBytes.LongBinary | websocket/WebSocket.cpp:59-73 | Its messages of 256 bytes and of 64 KiB. |
| Https1.Https1Handler.HandleInputWs | https1_reactor/Https1Handler.cpp:48-82 | The loop takes out the frames the decoding function gives and hands them on when it has ended; it ends if and only if no round comes upon a frame of no byte. |
| WsStream.LoopEndsIff | https1_reactor/Https1Handler.cpp:53-60 | For every buffer the loop ends if and only if no round comes upon an unmasked header announcing 2^64 - 10 bytes. |
| WsStream.StuckNeverEnds | https1_reactor/Https1Handler.cpp:53-60 | Ten bytes received on a new connection for which it does not. |
| WsStream.ChunkIndependence | https1_reactor/Https1Handler.cpp:48-82 | For any byte stream and any way of cutting it, the frames delivered and the bytes left over are those of feeding it all at once. |
| WsStream.CutsAgree | http1_client/Http1Client.h:270-302 | Two ways of cutting the same bytes leave the decoder in the same state with the same frames delivered. |
| WsStream.Conversation | https1_reactor/Https1Handler.cpp:48-82 | Messages made at one end and received in any pieces at the other are delivered each once, in order and unharmed, with nothing left over. |
| Sha1.SHA1.Reset | websocket/sha1/sha1.cpp:100-114 | The object stands for the empty message. |
| Sha1.SHA1.Input | websocket/sha1/sha1.cpp:175-212 | The bytes are appended to the message; 2^64 bits or more, or any bytes after the digest, spoil the object. |
| Sha1.SHA1.Count | websocket/sha1/sha1.cpp:193-203 | Length_High:Length_Low goes up by 8; it wraps around exactly at 2^64 bits, and only then is the object spoiled. |
| Sha1.SHA1.ProcessMessageBlock | websocket/sha1/sha1.cpp:411-498 | The four loops over the schedule are the standard's 80 rounds, added to the hash words. |
| Sha1.SHA1.FillSchedule | websocket/sha1/sha1.cpp:424-438 | W is the standard's message schedule of the block. |
| Sha1.SHA1.PadMessage | websocket/sha1/sha1.cpp:521-566 | Padding in one or two blocks makes the hash words the digest of the whole message. |
| Sha1.SHA1.Result | websocket/sha1/sha1.cpp:134-155 | Unless spoiled, the digest of the message absorbed, every time it is asked for. |
| Sha1.ChunkIndependence | websocket/sha1/sha1.cpp:175-212 | However a message is cut into inputs, the object is the same as after one input. |
| Sha1.WholeMessage | websocket/sha1/sha1.cpp:175-212 | From a new object, the message is all of the input exactly when that is below 2^64 bits. |
| Sha1.DigestShort | websocket/sha1/sha1.cpp:543-565 | A tail of at most 55 bytes is padded within one block. |
| Sha1.DigestLong | websocket/sha1/sha1.cpp:528-542 | A longer tail takes two. |
| Sha1.WordOfIsBig | websocket/sha1/sha1.cpp:427-433 | A word of the block is its four bytes as a big-endian number. |
| Sha1.ChooseTakes | websocket/sha1/sha1.cpp:446-455 | The function of the first 20 rounds takes C where B has a one and D where it has a zero. |
| Sha1.MajorityIsShared | websocket/sha1/sha1.cpp:468-478 | The function of the third 20 rounds has the bit that two of its arguments share, whichever two. |
| Sha1.RootConstants | websocket/sha1/sha1.cpp:413-418 | The four constants are the square roots of 2, 3, 5 and 10, times 2^30, rounded down. |
| Sha1.InitialBytes | websocket/sha1/sha1.cpp:106-110 | The first four words are the bytes 01 23 .. EF and FE .. 10 counted up and down, the fifth F0 E1 D2 C3. |
| Sha1Answers.Abc | websocket/sha1/shatest.cpp:60-76 | The digest of "abc" is the one of appendix A of FIPS 180-1, all 80 rounds worked out. |
| Md5.Md5State.constructor | websocket/md5/md5.c:313-321 | A new state has the standard's four words and the empty message. |
| Md5.Md5State.Process | websocket/md5/md5.c:132-311 | The 64 unrolled operations are the standard's compression of the block. |
| Md5.Round1 | websocket/md5/md5.c:200-223 | The sixteen operations of round 1, written with rotating variables, are the table-driven operations 0 to 15. |
| Md5.Table1 | websocket/md5/md5.c:66-81 | The constants of round 1, complemented ones included, and its word indices and shifts are the standard's. |
| Md5.Round2 | websocket/md5/md5.c:226-249 | The sixteen operations of round 2, written with rotating variables, are the table-driven operations 16 to 31. |
| Md5.Table2 | websocket/md5/md5.c:82-97 | The constants of round 2, complemented ones included, and its word indices and shifts are the standard's. |
| Md5.Round3 | websocket/md5/md5.c:252-275 | The sixteen operations of round 3, written with rotating variables, are the table-driven operations 32 to 47. |
| Md5.Table3 | websocket/md5/md5.c:98-113 | The constants of round 3, complemented ones included, and its word indices and shifts are the standard's. |
| Md5.Round4 | websocket/md5/md5.c:278-301 | The sixteen operations of round 4, written with rotating variables, are the table-driven operations 48 to 63. |
| Md5.Table4 | websocket/md5/md5.c:114-129 | The constants of round 4, complemented ones included, and its word indices and shifts are the standard's. |
| Md5.Md5State.Append | websocket/md5/md5.c:323-359 | The begun block, whole blocks and the tail: the state stands for the old message followed by the data. |
| Md5.Md5State.AddCount | websocket/md5/md5.c:334-338 | The two words count 8 times the bytes modulo 2^64, carry included. |
| Md5.CountIsSum | websocket/md5/md5.c:334-338 | The sum over two 32-bit words with its carry test is the sum modulo 2^64. |
| Md5.OffsetIs | websocket/md5/md5.c:328 | The offset read off the low word is the length modulo 64. |
| Md5.PaddingReaches | websocket/md5/md5.c:377 | The padding asked for always reaches 56 bytes modulo 64. |
| Md5.Md5State.Finish | websocket/md5/md5.c:361-382 | The digest is that of the whole message appended, as 16 bytes with each word's low-order byte first. |
| Md5.BytesMakeWord | websocket/md5/md5.c:380-381 | The four bytes put out for a word make that word again. |
| Md5.LengthReversed | websocket/md5/md5.c:373-375 | The eight bytes of the length are those of the big-endian number, the other way round. |
| Md5Answers.AbcDigest | websocket/md5/md5.c:132-382 | The digest of "abc" is the one of appendix A.5 of RFC 1321, all 64 operations worked out. |
| Base64.Base64Encode | websocket/base64/base64.cpp:42-83 | The encoding of section 4 of RFC 4648, both padded tails included. |
| Base64.Base64Decode | websocket/base64/base64.cpp:85-125 | Decoding goes on to the first character outside the alphabet; a last group of k characters gives k - 1 bytes. |
| Base64.RoundTrip | websocket/base64/base64.cpp:42-125 | Decoding undoes encoding for every byte string. |
| Base64.EncodedLength | websocket/base64/base64.cpp:42-83 | The encoding has 4 characters for each 3 bytes begun. |
| Base64.EncodeInjective | websocket/base64/base64.cpp:42-83 | No two byte strings are encoded alike. |
| Base64.GroupBits | websocket/base64/base64.cpp:52-55 | Three bytes and their four sextets are the same 24 bits. |
| Base64.FindChar | websocket/base64/base64.cpp:32-35 | Every value has its own character, and looking the character up gives the value. |
| Base64.AlphabetIff | websocket/base64/base64.cpp:30-40 | is_base64 holds of the characters of the alphabet and no others. |
| Base64.EncodedGroup | websocket/base64/base64.cpp:42-83 | The characters of every group of three bytes are its 24 bits, six by six from the highest, looked up in the alphabet; of a last group of one or two bytes, with zero bits behind them, two or three characters and then "=". |
| Base64.PaddedExactly | websocket/base64/base64.cpp:76-77 | "=" stands at the end, once for each byte missing in the last group, and nowhere else. |
| AcceptKey.SecAcceptKey | websocket/WebSocket.cpp:166-194 | The answer is base64 of the SHA-1 digest of key and GUID, high-order bytes first; of a message of 2^32 bytes or more only the length modulo 2^32 is hashed. |
| AcceptKey.SwapBytes | websocket/WebSocket.cpp:180-191 | The in-place loop turns every four bytes around. |
| AcceptKey.SwappedMemory | websocket/WebSocket.cpp:180-191 | A digest stored by a little-endian machine is thereby put in the standard's byte order. |
| AcceptKey.AcceptLength | websocket/WebSocket.cpp:166-194 | Every answer has 28 characters. |
| AcceptSample.Sample | websocket/WebSocket.cpp:166-195 | To the sample key of section 1.3 of RFC 6455 the answer is the one given there: GUID, two blocks of SHA-1, byte order and base64, all worked out. |
| HttpHeaders.HttpHeader.Add | http1_protocol/HttpHeader.h:294-305 | The field is appended unless it is empty or there already (names compared without case). |
| HttpHeaders.HttpHeader.Set | http1_protocol/HttpHeader.h:209-215 | That name and value goes to the end of the list. |
| HttpHeaders.HttpHeader.Del | http1_protocol/HttpHeader.h:307-319 | All fields of the name go, the others stay in order. |
| HttpHeaders.HttpHeader.DelValue | http1_protocol/HttpHeader.h:321-340 | That one field goes, the others stay in order; an inner map left empty goes too. |
| HttpHeaders.HttpHeader.Count | http1_protocol/HttpHeader.h:228-235 | As many as a scan of the list finds. |
| HttpHeaders.HttpHeader.ContainsName | http1_protocol/HttpHeader.h:237-241 | True exactly when a scan of the list finds the name. |
| HttpHeaders.HttpHeader.CountValue | http1_protocol/HttpHeader.h:243-250 | 1 or 0, as a scan of the list finds the field or not. |
| HttpHeaders.HttpHeader.ContainsIgnoreCase | http1_protocol/HttpHeader.h:252-268 | True exactly when some field of the name has the value in some case. |
| HttpHeaders.HttpHeader.Get | http1_protocol/HttpHeader.h:148-158 | The first of the name's values in the order of strings, or nothing. |
| HttpHeaders.HttpHeader.ToString | http1_protocol/HttpHeader.h:342-361 | The fields with a name and a value, in order, CRLF between them. |
| HttpHeaders.HttpHeader.Size | http1_protocol/HttpHeader.h:131-139 | The lengths of the values added up. |
| HttpHeaders.AppendKeeps | http1_protocol/HttpHeader.h:294-305 | Appending a new field and its entry keeps index entries and list nodes in bijection. |
| HttpHeaders.StrikeKeeps | http1_protocol/HttpHeader.h:321-340 | So does erasing the node an entry leads to and striking the entry; it is the only node of that name and value. |
| HttpHeaders.StrikeNameKeeps | http1_protocol/HttpHeader.h:307-319 | So does erasing all nodes of a name and its inner map. |
| HttpHeaders.AgreeUnique | http1_protocol/HttpHeader.h:105-107 | With index and list in bijection no name and value occurs twice. |
| HttpHeaders.CountIsValues | http1_protocol/HttpHeader.h:228-235 | The size of an inner map is the number of fields of that name. |
| Http1Stream.ParseHeader | http1_protocol/Http1Protocol.h:114-158 | The loop over the lines adds the fields the parsing function gives, fails at a line without ": ", and asks for more below one line. |
| Http1Stream.ReadBody | http1_protocol/Http1Protocol.h:160-190 | The body by content-length, by chunk terminator, or all there is. |
| Http1Stream.ParseMessage | http1_protocol/Http1Protocol.h:63-112 | parse is the parsing function: incomplete, malformed, or a message with its raw text. |
| Http1Stream.PacketOf | http1_protocol/Http1Request.h:167-191 | packet(true) prints the message and leaves the header with a content-length. |
| Http1Laws.SameAnswer | http1_protocol/Http1Protocol.h:63-190 | The answer for a message with a content-length looks at nothing behind it. |
| Http1Laws.PrefixIncomplete | http1_protocol/Http1Protocol.h:63-190 | Every strict prefix of such a message is incomplete, never malformed. |
| Http1Laws.SelfDelimiting | http1_protocol/Http1Protocol.h:63-190 | Messages with a content-length are self-delimiting: the raw message parses to the same result with anything behind it, and no strict prefix of it is a message. |
| Http1Bodies.BodyIs | http1_protocol/Http1Protocol.h:159-190 | What is handed on, in all three cases: the body is what stands behind the blank line, as long as the content-length says, or as the last chunk, or, with neither, all of it; the raw message ends with the body. |
| Http1Bodies.ChunkedBodyIs | http1_protocol/Http1Protocol.h:174-185 | A chunked body ends behind the last terminator that stands within the last 1000 bytes; without one there the message is incomplete, and with one it is not. |
| Http1Bodies.ChunkedEnds | http1_protocol/Http1Protocol.h:174-185 | A chunked message handed on ends with the terminator, and no terminator stands behind it in what has come. |
| Http1Bodies.HeaderIsTidy | http1_protocol/Http1Protocol.h:114-157 | Whatever arrives, the header handed on has no field without a name or a value, and none twice. |
| Http1Bodies.OpenGrows | http1_protocol/Http1Protocol.h:187-188 | A message with neither content-length nor chunked coding takes in all that follows it. |
| Http1Bodies.OpenHandedOn | https1_reactor/Https1Handler.cpp:16-46 | Such a message is handed on at the very input that completes its header, with as much of the body as has come by then. |
| Http1Bodies.OpenWholeIff | https1_reactor/Https1Handler.cpp:16-46 | So all of it is handed on if and only if that input carries all that is left. |
| Http1Bodies.WrittenParses | http1_protocol/Http1Protocol.h:63-190 | A message written with any header, content-length or not, is read back field by field, with the body its header asks for. |
| Http1Bodies.OpenExample | http1_protocol/Http1Protocol.h:187-188 | POST with a Host field and "hello" behind the blank line. |
| Http1Bodies.ChunkedExample | http1_protocol/Http1Protocol.h:174-185 | A chunked response whose coding is written in capitals; the chunks stay in the body. |
| Http1Bodies.PrintedResponse | http1_protocol/Http1Response.h:148-168 | What packet(true) prints for status 200 and the body "hi", character by character. |
| Http1RoundTrip.RequestLineBack | http1_protocol/Http1Request.h:257-289 | A printed request line gives its method, path and query back. |
| Http1RoundTrip.StatusLineBack | http1_protocol/Http1Response.h:176-202 | A printed status line gives its status back. |
| Http1RoundTrip.StatusLineIff | http1_protocol/Http1Response.h:176-202 | A printed status line gives its status back if and only if that is not negative. |
| Http1RoundTrip.NegativeIsError | http1_protocol/Http1Response.h:148-202 | A response printed with a negative status is malformed. |
| Http1RoundTrip.LinesBack | http1_protocol/Http1Protocol.h:120-157 | Printed header lines give the fields back, in order. |
| Http1RoundTrip.FindBlank | http1_protocol/Http1Protocol.h:82-84 | The blank line found is the one behind the header. |
| Http1RoundTrip.LengthIs | http1_protocol/Http1Request.h:174-175 | A printed message has a content-length: the one its header had, or else the body's. |
| Http1RoundTrip.RoundTrip | http1_protocol/Http1Response.h:148-202 | Parsing a printed message, request or response, gives the same parameters, the same fields in the same order, the same body, and the packet as the raw message, if and only if a content-length its header already had is the body's. |
| Http1RoundTrip.PrintedParses | http1_protocol/Http1Protocol.h:63-190 | For any header: parsing a printed message takes as many bytes for the body as the printed content-length says, and with fewer the message is incomplete. |
| Http1RoundTrip.PrintedAgain | http1_protocol/Http1Request.h:174-175 | A header printed once keeps its content-length: printed again with a shorter body the message is incomplete, with a longer one the body is cut. |
| Http1RoundTrip.PacketDelimited | http1_protocol/Http1Request.h:167-191 | A printed message ends where it says it does, for every continuation, under the same condition and no other. |
| Http1RoundTrip.Delivered | https1_reactor/Https1Handler.cpp:16-46 | A printed message received in any pieces is handed on once, as it was made, under the same condition and no other. |
| HttpText.ReadDecimal | http1_protocol/HttpHeader.h:160-171 | strtoll undoes to_string below 2^63. |
| HttpText.FirstExists | http1_protocol/HttpHeader.h:148-158 | A finite set of strings has a first one in the order of strings. |
| HttpText.ReadSigned | http1_protocol/HttpHeader.h:160-171 | strtoll of blanks, a number with or without a sign, and anything that does not go on with a digit is that number, held within 64 bits. |
| HttpText.ReadNothing | http1_protocol/HttpHeader.h:160-171 | And of a text without a number it is 0. |
| HttpText.FoldSameIff | http1_protocol/HttpHeader.h:80-91 | Two names are equal without case if and only if they are the same letter by letter, in either case. |
| HttpText.LeqIff | http1_protocol/HttpHeader.h:148-158 | The order of strings: at the first difference the smaller character, or the end. |
| Http1Stream.ExactlyOneMessage | https1_reactor/Https1Handler.cpp:16-46 | However a message with a content-length is cut into inputs, it is handled exactly once, without an error, and the buffer is empty afterwards. |
| Http1Stream.RestIsLost | https1_reactor/Https1Handler.cpp:28-39 | Bytes behind the message in the same input are lost with the cleared buffer. |
| Http1Stream.BothHandedOnIff | https1_reactor/Https1Handler.cpp:25-40 | Two messages sent one behind the other are both handed on, and nothing else is, if and only if some input ends between them. |
| Http1Stream.ErrorStays | http1_protocol/Http1Protocol.h:63-112 | A malformed message stays malformed, whatever follows. |
| Http1Stream.ClientStuck | http1_client/Http1Client.h:245-268 | From a malformed response on, every input is an error, is kept, and no response is handed on. |
| Http1Errors.ErrorIff | http1_protocol/Http1Protocol.h:63-157 | A message is malformed if and only if its first line is complete and is none, or its header is complete and has a line without ": ". |
| Http1Errors.AcceptedIff | http1_protocol/Http1Request.h:257-289 | A first line is accepted if and only if it has at most 256 characters and is a method, a path and a version, or a version, digits and a reason, with single blanks between. |
| Http1Errors.BadLineIff | http1_protocol/Http1Protocol.h:114-157 | The header is refused if and only if one of its lines has no ": ". |
| Http1Errors.ClientStuckIff | http1_client/Http1Client.h:245-268 | A client reports an error for every input to come, and hands on nothing, if and only if what it has kept is malformed in that sense. |
| Http1Errors.ClientStuckExample | http1_client/Http1Client.h:245-268 | A first line of one letter is enough. |
| Http1Errors.ServerRecovers | https1_reactor/Https1Handler.cpp:41-45 | A server reports one error and begins anew. |
| Https1.Https1Handler.HandleInput | https1_reactor/Https1Handler.cpp:16-46 | Input goes to the HTTP half, which drops its buffer at an error, or after an upgrade to the WebSocket half; the other half stays as it is. |
| Https1.Https1Handler.NextStreamId | https1_reactor/Https1Handler.cpp:5-14 | Stream ids count up and start again at 0 after the largest int32_t. |
| Https1.Https1Handler.HandleSentHttp1 | https1_reactor/Https1Handler.cpp:193-214 | A sent response turns the connection over to frames exactly when its status is 101 and its header upgrades to websocket; none turns it back. |
| Http1Stream.Http1Client.HandleRecvHttp1 | http1_client/Http1Client.h:245-268 | The client's input step, which keeps it. |

## Left out

- Sockets, epoll, pipes and address handling: replaced by kernel steps that may do anything a kernel may do, and by FIFO queues.
- The SSL reactor and clients: their behaviour depends on OpenSSL, which is not part of this model.
- TcpAsyncClient's output path: its test for a partial write treats every write as complete, so it does not keep the conservation law.
- The http1_reactor input loop: it parses its whole fixed-size buffer rather than the bytes received; Https1Handler's loop is modelled instead.
- The WebSocket loops of Http1Client and Https1Client: the same loop as Https1Handler's over another buffer.
- HttpHeader copying, clear() and set with a list of values: copies keep iterators into the old list, and clear() leaves the index behind.
- The const packet() functions: the request's prints content-length behind the blank line when the header is empty.
- Chunked bodies: the code only looks for the terminator and so does the model; nothing is decoded.
- Notifications to reactor_handler_, and the start and stop of reactor threads: they add no state to the tables.
- The entry of the control pipe itself in the mask table: it is added once and never changes.
- Status and version tables: a response's reason phrase is a parameter; every printed message says HTTP/1.1.
- mask keys, clocks and unwritten buffer bytes are parameters; HTTP stream ids are counted but not carried in messages.
- Reactors.Reactor.RunOnce: hands control back at the top of the loop at reactor/Reactor.cpp:155-156 after a number of rounds that is a parameter, because with waits of 2^31 ms or more that loop need not end; the next turn goes on where it stood.
- SessionTimer.TCPSessionHandler.HandleTimeout: gives up after a number of idle rounds that is a parameter, for the same reason; with shorter timeouts it is proved to end by itself, for callbacks that set finitely many timeouts.
- TwoTimers.NoLostTimeout: sessions are called on the reactor thread only, as their timers are not locked, and only the session itself sets the reactor's timer for its descriptor.
- WakeUp.NoLostWakeUp: says nothing of a handler whose descriptor some epoll_ctl was refused for, whose send failed for good, or whose removal has been asked for; and a descriptor number is not used again while a sender of its old handler stands between its append and its register_writable.
- Http1RoundTrip.RoundTrip: names and values are non-empty and without CR and LF, names without ": ", and the first line has at most 256 characters.
- Http1Stream.PacketOf: with packet(true); packet(false) of a response appends a blank line to the body.
- WebSockets.PayloadToString: of a frame whose header and length wrap around is not modelled: its end lies before its beginning, and what std::string makes of that is the library's.
- Md5.Md5State.Append: of data so long that the begun block and the data have 2^64 bytes or more: the sum at websocket/md5/md5.c:342 wraps around, and no machine holds that much.
- Machine.FreshCall: a number used again while an event about its earlier use is on its way is not covered.
- Reactors.Reactor.OtherThreads: in the class, other threads and callbacks register numbers never used before only; reuse is in the machine.
- Https1.Https1Handler.HandleSentHttp1: the maps of sent responses are left out, and so is the same change of buffers when sending one has failed.
