# Loggregator core, modelled in Dafny

This project models three parts of loggregator, the Cloud Foundry log fan-out service:

- **The syslog drain sink** (`src/loggregator/sinks/syslog_sink.go`, module `Sinks` in `syslog_sink.dfy`).
  - The jittered exponential retry strategy.
  - The delivery loop `Run`. Each pass sleeps for the current backoff. When disconnected, it dials the drain. A refused dial reports a diagnostic record on the error channel. Then it takes the next buffered message and writes it as stdout or stderr. A failed write drops that message, disconnects and backs off. A successful write resets the counter and adds to the sent-message and sent-byte counters. A closed buffer ends the run, and then the deferred writer closes run.
  - `Emit` as a read of the two counters.
- **The traffic controller's output proxy** (`src/trafficcontroller/output_proxy.go`, module `TrafficController` in `output_proxy.dfy`).
  - The three-guard authorization gate and the rejection record it sends.
  - One backend dial per hasher into a slot array.
  - `forwardIO`: it relays each backend's frames to the client and waits for the relay tasks to finish.
- **The sink server's HTTP front** (`src/loggregator/sinkserver/http_server.go`, module `SinkServer` in `http_server.dfy`).
  - The envelope filter `ParseEnvelopes`.
  - Path dispatch.
  - The app-id gates of the tail and dump handlers.
  - The dump forwarding loop.
  - The linear search `contains`.

Shared records are in `messages.dfy`: log message, envelope, bytes and `Option`.
A websocket connection is in `sockets.dfy`. It records every frame sent on it and every close, in order.

What the model takes as parameters:
- The drain's behaviour: the answers to successive dials and writes, given as scripts.
- Each backend's inbound frames.
- The marshaller and unmarshaller.
- The authorizer.
- The hasher's server choice.
- The clock: `clock(i)` is the reading taken at the i-th dial of a run, and the proxy's rejection record carries one reading.
- Go's duration formatting.

The random draw of `rand.Intn` is chosen non-deterministically among the values it can return.
`Run` records a trace of sleeps and outcomes: each sleep with its counter and delay, each dial as accepted or refused (a refusal with its counter and announced backoff), and each dispatch as a successful or failed write.
- `Schedule` is a function of the starting connection state and the two scripts alone. It gives the outcome events in order: while disconnected the loop dials, while connected it dispatches the next message, a success resets the counter to 0 and a failure increments it.
- `Run` proves that the trace's outcomes are exactly that schedule, for the dials made and the messages received.
- `Paced` states that each pass of the loop opens with exactly one sleep, followed by at most a dial and then at most a dispatch. A sleep comes first in the trace or right after a refused dial or a dispatch outcome, which end a pass. A dial follows the sleep of its pass, and a dispatch follows that sleep or the pass's accepted dial.
- `WellTimed` states that every recorded sleep is admissible for the counter at that moment, and every announced backoff for the counter's next value.

Two behaviours of the code that the model keeps apart from their evident intent:

- `forwardIO` starts one relay task per hasher slot, including slots whose dial failed, and waits for `len(servers)` signals (`output_proxy.go:120-138, 157-160`). A task on an empty slot panics on the nil connection before it signals. This is recorded under "## Findings": `ForwardIOAsWritten` models the code, and `ForwardIO`, which the session uses, starts tasks and waits only for the established backends.
- The dial warning carries a backoff that is a fresh draw of the strategy for the next counter value. That draw is independent of the delay the next pass sleeps (`syslog_sink.go:55, 50`). The model draws it separately and proves it admissible.

## Model

| member | source | states |
|---|---|---|
| Sinks.Backoff | src/loggregator/sinks/syslog_sink.go:133-147 | For counter 0 the delay is 0. Otherwise it is a whole number of microseconds within ten percent of 10 × 2^(min(c,23)−1) × 100 µs, the upper end excluded. |
| Sinks.BackoffReachesEveryAdmissibleDelay | src/loggregator/sinks/syslog_sink.go:141-144 | Every admissible delay is produced by some value `rand.Intn` can return. The admissible range is exactly the strategy's range. |
| Sinks.BackoffBaseDoubles | src/loggregator/sinks/syslog_sink.go:141 | Below the clamp, the base delay doubles with each further failure. |
| Sinks.BackoffClamped | src/loggregator/sinks/syslog_sink.go:138-140 | A counter above 23 gives the same delay, and the same admissible range, as 23. |
| Sinks.BackoffBounded | src/loggregator/sinks/syslog_sink.go:134-145 | Every delay is non-negative and below 11 × 2^22 × 100 µs. |
| Sinks.WellTimedSleepsBounded | src/loggregator/sinks/syslog_sink.go:50-55 | In a well-timed run, every sleep waited an admissible delay for the counter of its moment, below the maximum. Every backoff announced by a refused dial is non-negative and below the maximum. |
| Sinks.DialEvent | src/loggregator/sinks/syslog_sink.go:53-69 | A dial's event is `Dialled` iff the drain accepted, and `DialFailed` iff it refused. |
| Sinks.OutcomesAreTheNonSleeps | src/loggregator/sinks/syslog_sink.go:47-99 | An event is among a trace's outcomes iff it is in the trace and is not a sleep. |
| Sinks.ScheduleDial | src/loggregator/sinks/syslog_sink.go:51-71 | When the schedule so far ends disconnected, one more dial answer adds exactly that dial's event, and the schedule then ends connected with counter 0 or disconnected with counter+1. |
| Sinks.ScheduleDispatch | src/loggregator/sinks/syslog_sink.go:74-98 | When the schedule so far ends connected, one more dispatch adds exactly its outcome, and the schedule then ends in the stage that outcome leads to. |
| Sinks.TraceExtend | src/loggregator/sinks/syslog_sink.go:47-99 | A sleep leaves the outcomes as they are and any other event is appended to them. An event that may follow the trace keeps it paced. |
| Sinks.ScheduleDialStep | src/loggregator/sinks/syslog_sink.go:50-71 | A dial made right after a sleep, while the schedule ends disconnected, keeps the trace paced and its outcomes equal to the schedule over one more answer. The counter resets if the dial was accepted and increments if refused. |
| Sinks.ScheduleDispatchStep | src/loggregator/sinks/syslog_sink.go:74-98 | A dispatch made right after a sleep or an accepted dial, while the schedule ends connected, keeps the trace paced and its outcomes equal to the schedule over one more dispatch. A success ends connected at counter 0, a failure disconnected at counter+1. |
| Sinks.WriteEventsStep | src/loggregator/sinks/syslog_sink.go:83-98 | Receiving one more message appends exactly its dispatch outcome, which is a success or a failed write. |
| Sinks.WriteEventsAreDispatches | src/loggregator/sinks/syslog_sink.go:83-98 | Every outcome of dispatching the received messages is a write success or failure. |
| Sinks.WriteEventsCountFailures | src/loggregator/sinks/syslog_sink.go:89-92 | The failed dispatches among the received messages are exactly the failures among the write answers they consumed. |
| Sinks.ScheduleAccounting | src/loggregator/sinks/syslog_sink.go:56-92 | Along a complete schedule, accepted dials (plus one if it ends disconnected) equal failed writes (plus one if it starts disconnected). A refused last dial leaves the schedule disconnected. |
| Sinks.ScheduleAnnounces | src/loggregator/sinks/syslog_sink.go:54-56 | A complete schedule announces, in order, exactly the backoffs of its refused dials. |
| Sinks.OutcomesAnnounce | src/loggregator/sinks/syslog_sink.go:54-56 | Sleeps announce no backoff, so a trace's outcomes announce exactly what the trace does. |
| Sinks.SyslogSink.constructor | src/loggregator/sinks/syslog_sink.go:25-37 | A new sink has zero sent counters and has emitted nothing. |
| Sinks.SyslogSink.Emit | src/loggregator/sinks/syslog_sink.go:122-129 | The context is named "syslogSink". It holds the metrics "sentMessageCount:"+appId and "sentByteCount:"+appId, whose values are the counters. |
| Sinks.SyslogSink.Sleep | src/loggregator/sinks/syslog_sink.go:50 | The delay slept is admissible for the current counter, and it is recorded. |
| Sinks.SyslogSink.AttemptConnect | src/loggregator/sinks/syslog_sink.go:51-70 | A dial consumes one drain answer. Accepted: connected and counter reset. Refused: the counter is incremented and the connected flag is untouched. One diagnostic is added (if it marshals), stamped with this dial's clock reading. It announces a backoff admissible for counter+1, and the trace records that backoff. |
| Sinks.SyslogSink.DiagnosticsReportRefusals | src/loggregator/sinks/syslog_sink.go:53-64 | There is at most one diagnostic per refused dial. When marshalling never fails, there is exactly one, and the refused plus accepted dials are all the dials. Each is an ERR/LOGGREGATOR record from "LGR" about the sink's app. It is stamped with the clock reading of some refused dial i, and names the drain, the backoff dial i announced and dial i's refusal reason. |
| Sinks.SyslogSink.Deliver | src/loggregator/sinks/syslog_sink.go:81-98 | OUT and ERR messages are written as stdout and stderr frames. Any other type is not written and counts as sent. On failure: counter+1, disconnected, counters and frames unchanged. On success: counter reset, one more message and raw-length more bytes. |
| Sinks.SyslogSink.RunDeferredCloses | src/loggregator/sinks/syslog_sink.go:70-78 | On return, the writer is closed once per successful connect. |
| Sinks.SyslogSink.DialNext | src/loggregator/sinks/syslog_sink.go:51-71 | A dial while disconnected consumes the next answer and extends the booked diagnostics and deferred closes by that answer's share. The trace gains exactly that dial's event: `Dialled` if accepted, otherwise `DialFailed` with the counter and the announced backoff. The counter becomes 0 if accepted and counter+1 if refused. The sink is connected iff the answer accepted. |
| Sinks.SyslogSink.DialStep | src/loggregator/sinks/syslog_sink.go:53-70 | The next dial takes the first pending drain answer. The booked diagnostics grow by that answer's record, if any, stamped with the dial's clock reading, and the accepted count grows by one iff it accepted. |
| Sinks.DispatchStep | src/loggregator/sinks/syslog_sink.go:83-92 | Dispatching the next message needs one more write iff it is an OUT or ERR message. That write takes the next write answer, and the message's outcome is a success iff it is not written or the answer accepts. |
| Sinks.SyslogSink.DeliverNext | src/loggregator/sinks/syslog_sink.go:74-98 | One dispatch extends the booked counters and frames to the next buffer prefix, per `Delivered`. The trace gains exactly that message's outcome from `WriteEvents`, a success iff it was delivered. The counter becomes 0 on success and counter+1 on failure, and a failure leaves the sink disconnected. |
| Sinks.SyslogSink.DeliverBooked | src/loggregator/sinks/syslog_sink.go:74-98 | A dispatch while connected adds the next message's outcome to the trace. The trace's outcomes still equal `Schedule`, now over one more received message. The counter resets on success and increments on failure, and the sink stays connected iff the write succeeded. |
| Sinks.SyslogSink.SleepBooked | src/loggregator/sinks/syslog_sink.go:50 | A pass may open only once the previous pass has ended. Its sleep is admissible for the current counter, keeps the trace paced and adds no outcome. |
| Sinks.SyslogSink.DialBooked | src/loggregator/sinks/syslog_sink.go:51-71 | A dial right after the sleep of a pass, while disconnected, adds exactly that dial's event to the trace. The trace's outcomes still equal `Schedule`, now over one more answer. The sink is connected iff the answer accepted, with counter 0, and otherwise the counter is incremented. |
| Sinks.SyslogSink.DialIfDisconnected | src/loggregator/sinks/syslog_sink.go:51-71 | After the sleep, a connected sink does not dial. A disconnected one dials iff an answer is left, and the trace gains exactly that dial's event. Otherwise it reports the answers used up. Afterwards, a connected sink is ready to dispatch. |
| Sinks.SyslogSink.SleepAndDial | src/loggregator/sinks/syslog_sink.go:50-71 | A pass first records a sleep admissible for the current counter. A connected sink does not dial. A disconnected one dials iff an answer is left; the trace then gains exactly that dial's event, and the counter resets or increments with the answer. Otherwise the pass reports the answers used up. The trace's outcomes still equal `Schedule` for the dials made. |
| Sinks.SyslogSink.FinishPass | src/loggregator/sinks/syslog_sink.go:65-99 | After a refused dial the pass ends with nothing read. While connected, a pass either returns on the closed buffer or dispatches exactly one buffered message. On return the sink is still connected, the deferred closes have run and the trace is unchanged. On dispatch the trace gains that message's outcome, and the counter resets on success and increments on failure. A pass that does not return ends on a refused dial or a dispatch outcome. |
| Sinks.SyslogSink.Iterate | src/loggregator/sinks/syslog_sink.go:47-99 | One pass adds to the trace, in order: a sleep admissible for the counter; a dial event iff the sink was disconnected and an answer was left; and the next message's outcome iff one was dispatched. A refused dial ends the pass without reading the buffer. A pass that does not stop ends on a refused dial or a dispatch outcome, so the next pass may open, and it consumes a drain answer or a buffered message. The trace's outcomes stay equal to `Schedule` of the dials and dispatches made. |
| Sinks.SyslogSink.Loop | src/loggregator/sinks/syslog_sink.go:43-99 | The loop returns either once the buffer is closed and drained, connected and with the deferred closes run, or with the answers used up while disconnected. The trace opens with a sleep of 0 and is paced: exactly one sleep per pass, then at most a dial and a dispatch. Its outcome events, in order, are `Schedule` of the starting state, the dials made and the messages received, and that schedule ends in the writer's final connection state. |
| Sinks.SyslogSink.Run | src/loggregator/sinks/syslog_sink.go:39-100 | After a run, the error channel holds exactly the diagnostics of the dials made, each with its own dial's clock reading. The trace's outcome events, in order, are `Schedule` of the answer and write scripts. It opens with a sleep of 0 and is paced, with exactly one sleep opening each pass, and every sleep is admissible for the counter at its moment. It announces exactly the refused dials' backoffs, each admissible for the counter after its dial. Accepted dials (plus one if the answers ran out) equal the failed writes (plus one if the writer started disconnected). A closed-buffer exit leaves the writer connected, the last dial accepted, and one close per accepted dial. The counters and the drain's frames equal those of `Delivered(buffer, write answers)`. |
| Sinks.DeliveredLosesOnlyFailedWrites | src/loggregator/sinks/syslog_sink.go:89-98 | Each buffered message is either counted as sent or lost to exactly one failed write. It is never retried. |
| Sinks.DeliveredAllWhenWritesSucceed | src/loggregator/sinks/syslog_sink.go:93-98 | When the drain accepts every write, every buffered message is counted, in order. |
| Sinks.DeliveredWithinBuffer | src/loggregator/sinks/syslog_sink.go:93-97 | Counted messages come from the buffer. Their number and raw size never exceed the buffer's. |
| TrafficController.RejectionRecord | src/trafficcontroller/output_proxy.go:32-45 | A rejection record is an ERR message of source type UNKNOWN from "LGR", carrying the requested app id, the text and the clock reading. |
| TrafficController.IsAuthorized | src/trafficcontroller/output_proxy.go:31-66 | Authorized iff the app id and token are non-empty and the authorizer accepts (token, app id). A record is returned iff the session is rejected, with the text of the first failing guard in order. |
| TrafficController.AuthorizerConsultedOnlyWithBoth | src/trafficcontroller/output_proxy.go:47-59 | With an empty app id or token, the authorizer's answer cannot change the outcome. |
| TrafficController.BackendTask | src/trafficcontroller/output_proxy.go:121-137 | The relay task of an established backend forwards every frame of its backend to the client in arrival order. It ignores send errors, signals completion exactly once and closes its backend. |
| TrafficController.ForwardIO | src/trafficcontroller/output_proxy.go:116-162 | Corrected relay: one task per established backend, and exactly one signal received per task, none left pending. The client receives every established backend's frames and nothing else. Each established backend is closed. |
| TrafficController.BackendTaskAsWritten | src/trafficcontroller/output_proxy.go:121-137 | A relay as started on every slot: on an empty slot it fails before signalling and relays nothing. Otherwise it behaves as `BackendTask`. |
| TrafficController.StartTasksAsWritten | src/trafficcontroller/output_proxy.go:120-138 | Starting a task on every slot sends one signal per established backend and relays exactly the established backends' frames. It panics iff some slot is empty. |
| TrafficController.ForwardIOAsWritten | src/trafficcontroller/output_proxy.go:116-162 | As written, the relays send one signal per established backend, and the client receives exactly the established backends' frames. An empty slot is reported as the panic it causes. The wait for `len(servers)` signals finishes iff no relay panicked, that is iff no slot is empty. |
| TrafficController.EstablishedCount | src/trafficcontroller/output_proxy.go:157-160 | There are at most as many established backends as slots, and exactly as many iff every dial succeeded. |
| TrafficController.RelayedOnlyForwards | src/trafficcontroller/output_proxy.go:125-136 | The relay only sends data frames and never closes the client. With no established backend, nothing is relayed. |
| TrafficController.Proxy.constructor | src/trafficcontroller/output_proxy.go:23-25 | A proxy keeps the hashers and the authorizer it is given. |
| TrafficController.Proxy.HandleWebSocket | src/trafficcontroller/output_proxy.go:68-114 | A rejected session gets exactly the marshalled record (no bytes if marshalling fails) and a close, and no hasher is dialled. An authorized session dials "ws://"+server+requestURI once per hasher, in order. Slot i holds the connection iff that dial succeeded. The client gets the relayed frames and then the deferred close. |
| SinkServer.UnmarshalledExactlySuccesses | src/loggregator/sinkserver/http_server.go:41-51 | A message is forwarded iff some incoming frame unmarshals to it. |
| SinkServer.UnmarshalledAppend | src/loggregator/sinkserver/http_server.go:41-51 | Filtering preserves order and distributes over concatenation. |
| SinkServer.UnmarshalledAllSucceed | src/loggregator/sinkserver/http_server.go:44-49 | When every frame unmarshals, nothing is dropped, and the i-th message is the i-th frame's value. |
| SinkServer.UnmarshalledNoLonger | src/loggregator/sinkserver/http_server.go:41-51 | The filter forwards at most as many messages as frames. |
| SinkServer.HttpServer.constructor | src/loggregator/sinkserver/http_server.go:27-29 | A server keeps its router and unmarshaller. |
| SinkServer.HttpServer.ParseEnvelopes | src/loggregator/sinkserver/http_server.go:41-51 | The router's parsed-message channel grows by exactly the frames that unmarshal, in input order. Failures are dropped without stopping. |
| SinkServer.HttpServer.WebsocketRouter | src/loggregator/sinkserver/http_server.go:58-67 | "/tail/" goes to the tail handler and "/dump/" to the dump handler. Any other path is closed with 400 and nothing else changes. |
| SinkServer.HttpServer.WebsocketSinkHandler | src/loggregator/sinkserver/http_server.go:69-84 | An empty app id closes with 4000 and opens no sink. Otherwise exactly one sink for the app is handed to the router. |
| SinkServer.HttpServer.DumpSinkHandler | src/loggregator/sinkserver/http_server.go:86-101 | An empty app id closes with 4000 and registers no dump. Otherwise the app's dump is registered, its messages are forwarded, and the socket is closed only after the last one. |
| SinkServer.DumpMessagesFromChannelToWebsocket | src/loggregator/sinkserver/http_server.go:103-112 | The socket receives every message's raw bytes, in channel order, whatever the send errors. |
| SinkServer.Contains | src/loggregator/sinkserver/http_server.go:114-121 | The result is true iff some element equals the value sought. |

## Findings

| source | as written | input that shows it | evidently intended | confidence | as-written member | corrected member |
|---|---|---|---|---|---|---|
| src/trafficcontroller/output_proxy.go:120-138, 157-160 | A relay task starts on every slot, including a slot whose dial failed. That task calls a method on the nil connection before it signals. The resulting panic is not recovered, so it ends the whole proxy process, not only this session. Even without the panic, the session would wait for `len(servers)` signals and block forever. | Two hashers, the second backend refuses the dial: one signal is sent, two are awaited. | Wait for one signal per established backend. | not executed | TrafficController.ForwardIOAsWritten | TrafficController.ForwardIO |

## Left out

- Real websocket, HTTP and network I/O, and the drain connection. Connections are event logs, and the drain's and backends' answers are parameters.
- Goroutines and channels are sequentialised. In `forwardIO`, the backends' frames reach the client one backend after another, so the interleaving across backends is not modelled. The same goes for the keep-alive task that copies client frames to every backend, and for the shared receive buffer all relay tasks write into.
- TrafficController.ForwardIO: it is the corrected relay, which starts tasks only for established backends. The source starts one on every slot and waits for `len(servers)` signals; `ForwardIOAsWritten` models that, see "## Findings".
- TrafficController.BackendTask: it takes an established backend. On an empty slot, the source's task calls `RemoteAddr` on a nil connection before it can signal. That call belongs to the websocket library, which is not part of this model. `BackendTaskAsWritten` reduces it to a reported panic (`panicked`) before any signal. Ending the process is not modelled: `ForwardIOAsWritten` still lets the established slots' tasks relay their frames.
- The keep-alive goroutine also sends to empty slots. Like the relay above, that goes into the websocket library and is not modelled.
- SinkServer.HttpServer.ParseEnvelopes: the source loop never exits and never checks whether the channel is closed, so after a close it would receive nil frames forever. The model covers the finite sequence of frames received so far.
- `websocket.NewConfig` failing is not modelled. Only the dial's outcome is.
- `time.Now`, `time.Sleep` and `rand.Intn` are not executed. The clock is a parameter, and each sleep is a recorded delay whose draw is any value `rand.Intn` can return. `math.Pow` is an integer power.
- All gosteno logging is left out. That includes the debug line that draws a backoff only to print it (`syslog_sink.go:48`).
- The application id a handler derives from the request is a field of the connection. The proxy reads the `app` form value, and the sink server calls `appid.FromUrl` on the request URL; how that function parses the URL is not part of this model.
- Protobuf marshalling and unmarshalling, `GenerateMessage`'s encoding, the hasher's ring, the authorizer, `Duration.String` and `runTruncatingBuffer` are opaque parameters. The buffer is the finite sequence of messages it yields before closing.
- The websocket sink's `Run`, started by the tail handler, and the message router are not part of this model. The router is reduced to the channels the server feeds.
- `Start` (`ListenAndServe`) in both servers is left out.
- Sinks.SyslogSink.Run: the two counters are unbounded naturals; the 64-bit wrap of `atomic.AddUint64` is not modelled.
- Sinks.SyslogSink.Run: the drain's answers to dials are a finite script. Where the source would keep dialling forever while the drain refuses, a run stops with `ConnectAnswersExhausted` once the script is used up.
- Sinks.SyslogSink.Run: the trace that records sleeps starts empty at each run.
- Sinks.SyslogSink.Deliver: the counters are unbounded naturals, as in `Run`.
- TrafficController.Proxy.HandleWebSocket: the relayed frames are listed per backend rather than interleaved, as above.
- TrafficController.Proxy.HandleWebSocket: the dial outcomes and the backends' inbound frames are functions of the server address. Two hashers that choose the same server therefore get the same dial answer and the same frames, whereas the source dials each hasher's choice separately and the two connections may differ.
- TrafficController.Proxy.HandleWebSocket: the session calls the corrected `ForwardIO`. When a dial fails, its contract therefore describes the intended behaviour, not the code as written, which panics on the empty slot (see "## Findings").
