/** The syslog drain sink: the jittered exponential reconnect backoff and the
    connect / stream / fail delivery loop of one drain. */
module Sinks {
  import opened Messages

  // ------------------------------------------------------------------
  // Retry strategy (newExponentialRetryStrategy)

  /** Nanoseconds per microsecond: `time.Duration` counts nanoseconds. */
  const Microsecond: nat := 1000

  /** Counters above this value are treated as this value. */
  const MaxTries: nat := 23

  /** Upper bound (exclusive) of every delay: 11 * 2^22 * 100 microseconds. */
  const MaxBackoff: nat := 11 * Pow2(MaxTries - 1) * 100 * Microsecond

  function Pow2(k: nat): (r: nat)
    ensures r >= 1
  {
    if k == 0 then 1 else 2 * Pow2(k - 1)
  }

  function Clamp(tries: nat): nat
  {
    if tries > MaxTries then MaxTries else tries
  }

  /** `tenthDuration`: a tenth of the base delay, in microseconds. */
  function TenthMicros(tries: nat): nat
    requires tries >= 1
  {
    Pow2(Clamp(tries) - 1) * 100
  }

  /** Whether `draw` is a value `rand.Intn(2 * tenthDuration)` can return
      (no draw is made for a zero counter). */
  predicate ValidDraw(tries: nat, draw: nat)
  {
    tries == 0 || draw < 2 * TenthMicros(tries)
  }

  /** The delays the strategy can produce for a counter: nothing for 0;
      otherwise whole microseconds within ten percent of the base delay
      `10 * tenthDuration`, the upper end excluded. */
  predicate AdmissibleDelay(tries: nat, d: int)
  {
    if tries == 0 then d == 0
    else
      && 9 * TenthMicros(tries) * Microsecond <= d < 11 * TenthMicros(tries) * Microsecond
      && d % Microsecond == 0
  }

  /** The retry strategy's delay for a counter, given the random draw. */
  function Backoff(tries: nat, draw: nat): (d: int)
    requires ValidDraw(tries, draw)
    ensures AdmissibleDelay(tries, d)
  {
    if tries == 0 then 0
    else
      var tenthDuration := TenthMicros(tries);
      var duration := tenthDuration * 10;
      var randomOffset := draw - tenthDuration;
      duration * Microsecond + randomOffset * Microsecond
  }

  /** Every admissible delay is produced by some draw: the admissible range is
      exactly the set of delays the strategy can return. */
  lemma BackoffReachesEveryAdmissibleDelay(tries: nat, d: int)
    requires AdmissibleDelay(tries, d)
    ensures exists draw: nat :: ValidDraw(tries, draw) && Backoff(tries, draw) == d
  {
    if tries == 0 {
      assert ValidDraw(0, 0) && Backoff(0, 0) == d;
    } else {
      var t := TenthMicros(tries);
      var draw: nat := d / Microsecond - 9 * t;
      assert ValidDraw(tries, draw) && Backoff(tries, draw) == d;
    }
  }

  /** The base delay doubles with each further failure up to the clamp. */
  lemma BackoffBaseDoubles(tries: nat)
    requires 1 <= tries < MaxTries
    ensures TenthMicros(tries + 1) == 2 * TenthMicros(tries)
  {
  }

  /** Counters above the clamp behave exactly like the clamp. */
  lemma BackoffClamped(tries: nat, draw: nat)
    requires tries > MaxTries && ValidDraw(tries, draw)
    ensures ValidDraw(MaxTries, draw) && Backoff(tries, draw) == Backoff(MaxTries, draw)
    ensures forall d :: AdmissibleDelay(tries, d) <==> AdmissibleDelay(MaxTries, d)
  {
  }

  lemma {:induction false} Pow2Monotone(j: nat, k: nat)
    requires j <= k
    ensures Pow2(j) <= Pow2(k)
    decreases k - j
  {
    if j < k {
      Pow2Monotone(j, k - 1);
    }
  }

  /** No delay is negative or reaches 11 * 2^22 * 100 microseconds. */
  lemma BackoffBounded(tries: nat, draw: nat)
    requires ValidDraw(tries, draw)
    ensures 0 <= Backoff(tries, draw) < MaxBackoff
  {
    if tries >= 1 {
      Pow2Monotone(Clamp(tries) - 1, MaxTries - 1);
    }
  }

  // ------------------------------------------------------------------
  // The drain writer and the records of a run

  /** What the drain does with the next connection attempt. */
  datatype ConnectAnswer = Accepted | Refused(reason: string)

  /** A frame the drain accepted. */
  datatype Frame =
    | StdoutFrame(payload: string, sourceType: SourceType, timestamp: int)
    | StderrFrame(payload: string, sourceType: SourceType, timestamp: int)

  /** One step of the delivery loop, as far as the retry counter is concerned. */
  datatype SinkEvent =
    | Slept(tries: nat, duration: int)
      /** A refused dial at counter value `tries`, announcing the backoff
          `announced` in its warning. */
    | DialFailed(tries: nat, announced: int)
    | Dialled
    | WriteFailed
    | WriteSucceeded

  /** Why a run stopped. Only `BufferClosed` is a return of the loop; the other
      marks the point where the drain's scripted answers to connection attempts
      ran out while the sink was disconnected, and the loop would go on dialling. */
  datatype Exit = BufferClosed | ConnectAnswersExhausted

  /** A connection to a drain. Its answers to connects and writes are scripts
      fixed in advance (the network is not part of this model). */
  class SyslogWriter {
    var connected: bool
    var connectAnswers: seq<ConnectAnswer>
    var writeAnswers: seq<bool>
    var frames: seq<Frame>
    var closes: nat

    constructor (connectAnswers: seq<ConnectAnswer>, writeAnswers: seq<bool>)
      ensures !connected && frames == [] && closes == 0
      ensures this.connectAnswers == connectAnswers && this.writeAnswers == writeAnswers
    {
      connected := false;
      this.connectAnswers := connectAnswers;
      this.writeAnswers := writeAnswers;
      frames := [];
      closes := 0;
    }

    predicate IsConnected()
      reads this
    {
      connected
    }

    method SetConnected(value: bool)
      modifies this`connected
      ensures connected == value
    {
      connected := value;
    }

    /** Dials the drain; the error is the refusal reason, if any. */
    method Connect() returns (err: Option<string>)
      requires connectAnswers != []
      modifies this`connectAnswers
      ensures connectAnswers == old(connectAnswers)[1..]
      ensures err == if old(connectAnswers)[0].Accepted? then None else Some(old(connectAnswers)[0].reason)
    {
      err := if connectAnswers[0].Accepted? then None else Some(connectAnswers[0].reason);
      connectAnswers := connectAnswers[1..];
    }

    method WriteStdout(payload: string, sourceType: SourceType, timestamp: int) returns (failed: bool)
      requires writeAnswers != []
      modifies this`writeAnswers, this`frames
      ensures writeAnswers == old(writeAnswers)[1..]
      ensures failed == !old(writeAnswers)[0]
      ensures frames == old(frames) + if failed then [] else [StdoutFrame(payload, sourceType, timestamp)]
    {
      failed := !writeAnswers[0];
      writeAnswers := writeAnswers[1..];
      if !failed {
        frames := frames + [StdoutFrame(payload, sourceType, timestamp)];
      }
    }

    method WriteStderr(payload: string, sourceType: SourceType, timestamp: int) returns (failed: bool)
      requires writeAnswers != []
      modifies this`writeAnswers, this`frames
      ensures writeAnswers == old(writeAnswers)[1..]
      ensures failed == !old(writeAnswers)[0]
      ensures frames == old(frames) + if failed then [] else [StderrFrame(payload, sourceType, timestamp)]
    {
      failed := !writeAnswers[0];
      writeAnswers := writeAnswers[1..];
      if !failed {
        frames := frames + [StderrFrame(payload, sourceType, timestamp)];
      }
    }

    method Close()
      modifies this`closes
      ensures closes == old(closes) + 1
    {
      closes := closes + 1;
    }
  }

  // ------------------------------------------------------------------
  // Specification of what a run delivers

  /** Messages of type OUT and ERR are written; any other type is not. */
  predicate NeedsWrite(m: Envelope)
  {
    m.logMessage.messageType.Out? || m.logMessage.messageType.Err?
  }

  /** The frame a successful write of `m` adds at the drain. */
  function FrameFor(m: Envelope): seq<Frame>
  {
    match m.logMessage.messageType
    case Out => [StdoutFrame(m.logMessage.message, m.logMessage.sourceType, m.logMessage.timestamp)]
    case Err => [StderrFrame(m.logMessage.message, m.logMessage.sourceType, m.logMessage.timestamp)]
    case OtherMessageType(_) => []
  }

  function Frames(msgs: seq<Envelope>): seq<Frame>
  {
    if msgs == [] then [] else Frames(msgs[..|msgs| - 1]) + FrameFor(msgs[|msgs| - 1])
  }

  function TotalRawLength(msgs: seq<Envelope>): nat
  {
    if msgs == [] then 0 else TotalRawLength(msgs[..|msgs| - 1]) + msgs[|msgs| - 1].RawMessageLength()
  }

  /** How many writes the messages need. */
  function WritesNeeded(msgs: seq<Envelope>): (n: nat)
    ensures n <= |msgs|
  {
    if msgs == [] then 0
    else WritesNeeded(msgs[..|msgs| - 1]) + if NeedsWrite(msgs[|msgs| - 1]) then 1 else 0
  }

  /** The messages, in order, that the loop counts as sent when the drain answers
      its successive writes with `answers`: those whose write succeeded, and
      those of a type that is not written at all. */
  function Delivered(msgs: seq<Envelope>, answers: seq<bool>): seq<Envelope>
    requires WritesNeeded(msgs) <= |answers|
  {
    if msgs == [] then []
    else
      var prefix := msgs[..|msgs| - 1];
      var m := msgs[|msgs| - 1];
      Delivered(prefix, answers) + if !NeedsWrite(m) || answers[WritesNeeded(prefix)] then [m] else []
  }

  function AcceptedCount(answers: seq<ConnectAnswer>): nat
  {
    if answers == [] then 0
    else AcceptedCount(answers[..|answers| - 1]) + if answers[|answers| - 1].Accepted? then 1 else 0
  }

  function RefusedCount(answers: seq<ConnectAnswer>): nat
  {
    if answers == [] then 0
    else RefusedCount(answers[..|answers| - 1]) + if answers[|answers| - 1].Refused? then 1 else 0
  }

  /** Replays the events of one run: the value of the retry counter after
      them, or None when some sleep did not wait for an admissible delay of
      the counter's value at that point, or some refused dial announced a
      backoff not admissible for the next value of the counter. */
  function Replay(events: seq<SinkEvent>): Option<nat>
  {
    if events == [] then Some(0)
    else
      match Replay(events[..|events| - 1])
      case None => None
      case Some(tries) =>
        match events[|events| - 1]
        case Slept(t, d) => if t == tries && AdmissibleDelay(t, d) then Some(tries) else None
        case DialFailed(t, announced) =>
          if t == tries && AdmissibleDelay(tries + 1, announced) then Some(tries + 1) else None
        case WriteFailed => Some(tries + 1)
        case Dialled => Some(0)
        case WriteSucceeded => Some(0)
  }

  /** Every sleep of the run waited for an admissible delay of the counter's
      value at that point, and every refused dial announced an admissible
      delay for the counter's next value. */
  predicate WellTimed(events: seq<SinkEvent>)
  {
    Replay(events).Some?
  }

  /** The events of `events` other than sleeps: the outcomes of the dials
      and of the dispatches, in order. */
  function Outcomes(events: seq<SinkEvent>): seq<SinkEvent>
  {
    if events == [] then []
    else
      var k := |events| - 1;
      Outcomes(events[..k]) + if events[k].Slept? then [] else [events[k]]
  }

  /** The outcomes are exactly the events that are not sleeps. */
  lemma {:induction false} OutcomesAreTheNonSleeps(events: seq<SinkEvent>)
    ensures forall e :: e in Outcomes(events) <==> e in events && !e.Slept?
    decreases |events|
  {
    if events != [] {
      var k := |events| - 1;
      assert events == events[..k] + [events[k]];
      OutcomesAreTheNonSleeps(events[..k]);
    }
  }

  predicate IsDispatch(e: SinkEvent)
  {
    e.WriteSucceeded? || e.WriteFailed?
  }

  /** The previous pass, if any, is over: the trace is empty or ends in a
      refused dial or a dispatch outcome, after which the loop goes round. */
  predicate PassEnded(events: seq<SinkEvent>)
  {
    || events == []
    || events[|events| - 1].DialFailed?
    || IsDispatch(events[|events| - 1])
  }

  /** Whether `e` may come right after `events`: a sleep opens a pass, so it
      comes first or once the previous pass is over; a dial or dispatch
      directly follows the sleep of its pass, except that a dispatch may
      directly follow the accepted dial of its own pass. */
  predicate MayFollow(events: seq<SinkEvent>, e: SinkEvent)
  {
    if e.Slept? then PassEnded(events)
    else
      && events != []
      && (events[|events| - 1].Slept? || (events[|events| - 1].Dialled? && IsDispatch(e)))
  }

  /** A dispatch may come next: the trace ends in a sleep or an accepted dial. */
  predicate ReadyToDispatch(events: seq<SinkEvent>)
  {
    events != [] && (events[|events| - 1].Slept? || events[|events| - 1].Dialled?)
  }

  /** Each pass of the loop opens with exactly one sleep, followed by at
      most a dial and a dispatch, in that order. */
  predicate Paced(events: seq<SinkEvent>)
  {
    if events == [] then true
    else
      var k := |events| - 1;
      Paced(events[..k]) && MayFollow(events[..k], events[k])
  }

  /** The outcome of dispatching each message of `msgs` in turn, the drain
      answering the writes by `writes`: a message of a type that is not
      written, or whose write is accepted, succeeds. */
  function WriteEvents(msgs: seq<Envelope>, writes: seq<bool>): (r: seq<SinkEvent>)
    requires WritesNeeded(msgs) <= |writes|
    ensures |r| == |msgs|
  {
    if msgs == [] then []
    else
      var prefix := msgs[..|msgs| - 1];
      var m := msgs[|msgs| - 1];
      WriteEvents(prefix, writes) + [if !NeedsWrite(m) || writes[WritesNeeded(prefix)] then WriteSucceeded else WriteFailed]
  }

  /** Where the loop stands between events: connected or not, and the value
      of the retry counter. */
  datatype Stage = Stage(connected: bool, tries: nat)

  /** The event of a dial answered by `answer` at counter `tries`, whose
      warning announces `backoff` if it is refused. */
  function DialEvent(answer: ConnectAnswer, tries: nat, backoff: int): (e: SinkEvent)
    ensures e.Dialled? <==> answer.Accepted?
    ensures e.DialFailed? <==> answer.Refused?
  {
    if answer.Accepted? then Dialled else DialFailed(tries, backoff)
  }

  /** The stage after event `e`: a success connects and resets the counter,
      a failure disconnects and increments it. */
  function After(s: Stage, e: SinkEvent): Stage
  {
    match e
    case Slept(_, _) => s
    case Dialled => Stage(true, 0)
    case WriteSucceeded => Stage(true, 0)
    case DialFailed(_, _) => Stage(false, s.tries + 1)
    case WriteFailed => Stage(false, s.tries + 1)
  }

  /** The outcomes of a run from stage `s` that makes the dials answered by
      `answers` (the i-th refusal announcing `backoffs[i]`) and the
      dispatches whose outcomes are `dispatches`: while disconnected the
      loop dials, while connected it dispatches, and the outcomes stop where
      the one it needs next has run out. */
  function Schedule(s: Stage, answers: seq<ConnectAnswer>, backoffs: seq<int>, dispatches: seq<SinkEvent>)
    : seq<SinkEvent>
    requires |backoffs| == |answers|
    decreases |answers| + |dispatches|
  {
    if !s.connected then
      if answers == [] then []
      else
        var e := DialEvent(answers[0], s.tries, backoffs[0]);
        [e] + Schedule(After(s, e), answers[1..], backoffs[1..], dispatches)
    else if dispatches == [] then []
    else [dispatches[0]] + Schedule(After(s, dispatches[0]), answers, backoffs, dispatches[1..])
  }

  /** The stage `Schedule` ends in when it uses up both the answers and the
      dispatches, or None when it stops with some of them left. */
  function ScheduleEnd(s: Stage, answers: seq<ConnectAnswer>, backoffs: seq<int>, dispatches: seq<SinkEvent>)
    : Option<Stage>
    requires |backoffs| == |answers|
    decreases |answers| + |dispatches|
  {
    if !s.connected then
      if answers == [] then (if dispatches == [] then Some(s) else None)
      else ScheduleEnd(After(s, DialEvent(answers[0], s.tries, backoffs[0])), answers[1..], backoffs[1..], dispatches)
    else if dispatches == [] then (if answers == [] then Some(s) else None)
    else ScheduleEnd(After(s, dispatches[0]), answers, backoffs, dispatches[1..])
  }

  /** A schedule that used everything up and left the sink disconnected
      goes on with a dial: one more answer adds exactly its dial event. */
  lemma {:induction false} ScheduleDial(s: Stage, answers: seq<ConnectAnswer>, backoffs: seq<int>,
                                        dispatches: seq<SinkEvent>, a: ConnectAnswer, b: int)
    requires |backoffs| == |answers|
    requires ScheduleEnd(s, answers, backoffs, dispatches).Some?
    requires !ScheduleEnd(s, answers, backoffs, dispatches).value.connected
    ensures var end := ScheduleEnd(s, answers, backoffs, dispatches).value;
      && Schedule(s, answers + [a], backoffs + [b], dispatches)
         == Schedule(s, answers, backoffs, dispatches) + [DialEvent(a, end.tries, b)]
      && ScheduleEnd(s, answers + [a], backoffs + [b], dispatches) == Some(After(end, DialEvent(a, end.tries, b)))
    decreases |answers| + |dispatches|
  {
    if !s.connected {
      if answers == [] {
        var e := DialEvent(a, s.tries, b);
        assert [a][1..] == [] && [b][1..] == [];
        assert Schedule(After(s, e), [], [], dispatches) == [];
      } else {
        assert (answers + [a])[1..] == answers[1..] + [a];
        assert (backoffs + [b])[1..] == backoffs[1..] + [b];
        ScheduleDial(After(s, DialEvent(answers[0], s.tries, backoffs[0])), answers[1..], backoffs[1..],
                     dispatches, a, b);
      }
    } else {
      ScheduleDial(After(s, dispatches[0]), answers, backoffs, dispatches[1..], a, b);
    }
  }

  /** A schedule that used everything up and left the sink connected goes
      on with a dispatch: one more dispatch adds exactly its outcome. */
  lemma {:induction false} ScheduleDispatch(s: Stage, answers: seq<ConnectAnswer>, backoffs: seq<int>,
                                            dispatches: seq<SinkEvent>, d: SinkEvent)
    requires |backoffs| == |answers|
    requires ScheduleEnd(s, answers, backoffs, dispatches).Some?
    requires ScheduleEnd(s, answers, backoffs, dispatches).value.connected
    ensures var end := ScheduleEnd(s, answers, backoffs, dispatches).value;
      && Schedule(s, answers, backoffs, dispatches + [d]) == Schedule(s, answers, backoffs, dispatches) + [d]
      && ScheduleEnd(s, answers, backoffs, dispatches + [d]) == Some(After(end, d))
    decreases |answers| + |dispatches|
  {
    if !s.connected {
      ScheduleDispatch(After(s, DialEvent(answers[0], s.tries, backoffs[0])), answers[1..], backoffs[1..],
                       dispatches, d);
    } else if dispatches == [] {
      assert [d][1..] == [];
      assert Schedule(After(s, d), answers, backoffs, []) == [];
    } else {
      assert (dispatches + [d])[1..] == dispatches[1..] + [d];
      ScheduleDispatch(After(s, dispatches[0]), answers, backoffs, dispatches[1..], d);
    }
  }

  /** The backoffs announced by the refused dials among `events`, in order. */
  function Announced(events: seq<SinkEvent>): seq<int>
  {
    if events == [] then []
    else
      Announced(events[..|events| - 1])
      + if events[|events| - 1].DialFailed? then [events[|events| - 1].announced] else []
  }

  /** The backoffs of the refused answers among `answers`, the i-th answer
      having announced `backoffs[i]`. */
  function RefusedBackoffs(answers: seq<ConnectAnswer>, backoffs: seq<int>): seq<int>
    requires |backoffs| == |answers|
  {
    if answers == [] then []
    else
      RefusedBackoffs(answers[..|answers| - 1], backoffs[..|answers| - 1])
      + if answers[|answers| - 1].Refused? then [backoffs[|answers| - 1]] else []
  }

  /** `GenerateMessage` of loggregatorlib: builds the record and marshals it;
      a marshalling failure yields no envelope. */
  function GenerateMessage(marshal: LogMessage -> Option<Bytes>, messageType: MessageType, sourceType: SourceType,
                           text: string, appId: string, sourceName: string, now: int): Option<Envelope>
  {
    var logMessage := LogMessage(text, appId, messageType, sourceType, sourceName, now);
    match marshal(logMessage)
    case Some(raw) => Some(Envelope(logMessage, raw))
    case None => None
  }

  const DialErrorPrefix: string := "Syslog Sink "
  const DialErrorBackoff: string := ": Error when dialing out. Backing off for "
  const DialErrorReason: string := ". Err: "
  /** Source name stamped on the sink's own diagnostic records. */
  const DiagnosticSource: string := "LGR"

  /** The warning about a refused dial: the drain, the announced backoff as
      text, and the refusal reason. */
  function DialErrorText(drainUrl: string, backoff: string, reason: string): string
  {
    DialErrorPrefix + drainUrl + DialErrorBackoff + backoff + DialErrorReason + reason
  }

  // ------------------------------------------------------------------
  // The sink

  datatype Metric = Metric(name: string, value: nat)

  datatype Context = Context(name: string, metrics: seq<Metric>)

  class SyslogSink {
    const appId: string
    const drainUrl: string
    const syslogWriter: SyslogWriter
    /** The protobuf marshaller used for diagnostic records (may fail). */
    const marshal: LogMessage -> Option<Bytes>
    /** The text form of a duration in nanoseconds (Go's `Duration.String`). */
    const formatDuration: int -> string
    var sentMessageCount: nat
    var sentByteCount: nat
    /** Diagnostic records pushed onto the error channel, in order. */
    var errorChannel: seq<Envelope>
    /** Sleeps and state changes of the delivery loop, in order. */
    var trace: seq<SinkEvent>

    constructor (appId: string, drainUrl: string, syslogWriter: SyslogWriter, marshal: LogMessage -> Option<Bytes>,
                 formatDuration: int -> string)
      ensures this.appId == appId && this.drainUrl == drainUrl
      ensures this.syslogWriter == syslogWriter && this.marshal == marshal && this.formatDuration == formatDuration
      ensures sentMessageCount == 0 && sentByteCount == 0 && errorChannel == [] && trace == []
    {
      this.appId := appId;
      this.drainUrl := drainUrl;
      this.syslogWriter := syslogWriter;
      this.marshal := marshal;
      this.formatDuration := formatDuration;
      sentMessageCount := 0;
      sentByteCount := 0;
      errorChannel := [];
      trace := [];
    }

    /** The diagnostic record a connect answer leads to, if any, when the
        backoff announced for a refusal is `backoff`. */
    function DiagnosticFor(answer: ConnectAnswer, backoff: int, now: int): seq<Envelope>
    {
      match answer
      case Accepted => []
      case Refused(reason) =>
        match GenerateMessage(marshal, Err, Loggregator, DialErrorText(drainUrl, formatDuration(backoff), reason),
                              appId, DiagnosticSource, now)
        case Some(e) => [e]
        case None => []
    }

    /** The diagnostic records a sequence of connect answers leads to: the
        i-th dial, if refused, announces the backoff `backoffs[i]` and is
        stamped with the clock reading `clock(i)`. */
    function Diagnostics(answers: seq<ConnectAnswer>, backoffs: seq<int>, clock: nat -> int): seq<Envelope>
      requires |backoffs| == |answers|
    {
      if answers == [] then []
      else
        var k := |answers| - 1;
        Diagnostics(answers[..k], backoffs[..k], clock) + DiagnosticFor(answers[k], backoffs[k], clock(k))
    }

    /** The sink's diagnostics are ERR records from the loggregator source
        "LGR", about its own app, each reporting one refused dial with the
        backoff it announced, stamped with the clock reading of that dial.
        There is at most one per refused dial, and when the marshaller never
        fails every dial leads to exactly one of a connection and a record. */
    lemma {:induction false} DiagnosticsReportRefusals(answers: seq<ConnectAnswer>, backoffs: seq<int>, clock: nat -> int)
      requires |backoffs| == |answers|
      ensures |Diagnostics(answers, backoffs, clock)| <= RefusedCount(answers)
      ensures (forall lm :: marshal(lm).Some?) ==>
        && |Diagnostics(answers, backoffs, clock)| == RefusedCount(answers)
        && |Diagnostics(answers, backoffs, clock)| + AcceptedCount(answers) == |answers|
      ensures forall e :: e in Diagnostics(answers, backoffs, clock) ==>
        && e.logMessage.messageType == Err && e.logMessage.sourceType == Loggregator
        && e.logMessage.appId == appId && e.logMessage.sourceName == DiagnosticSource
        && exists i :: (0 <= i < |answers| && answers[i].Refused? && e.logMessage.timestamp == clock(i) &&
             e.logMessage.message == DialErrorText(drainUrl, formatDuration(backoffs[i]), answers[i].reason))
      decreases |answers|
    {
      ConnectAnswersSplit(answers);
      if answers != [] {
        var k := |answers| - 1;
        var prefix := answers[..k];
        DiagnosticsReportRefusals(prefix, backoffs[..k], clock);
        var last := DiagnosticFor(answers[k], backoffs[k], clock(k));
        assert Diagnostics(answers, backoffs, clock) == Diagnostics(prefix, backoffs[..k], clock) + last;
        forall e | e in Diagnostics(answers, backoffs, clock)
          ensures exists i :: (0 <= i < |answers| && answers[i].Refused? && e.logMessage.timestamp == clock(i) &&
            e.logMessage.message == DialErrorText(drainUrl, formatDuration(backoffs[i]), answers[i].reason))
        {
          if e in last {
            assert e.logMessage.timestamp == clock(k);
            assert e.logMessage.message == DialErrorText(drainUrl, formatDuration(backoffs[k]), answers[k].reason);
          } else {
            var i :| 0 <= i < |prefix| && prefix[i].Refused? && e.logMessage.timestamp == clock(i) &&
              e.logMessage.message == DialErrorText(drainUrl, formatDuration(backoffs[..k][i]), prefix[i].reason);
            assert answers[i] == prefix[i] && backoffs[i] == backoffs[..k][i];
          }
        }
      }
    }

    /** After `|backoffs|` connection attempts answered by `answers`, the
        i-th announcing `backoffs[i]` if refused and stamped `clock(i)`, the
        answers still pending are `pending` and the error records, from
        `errors0`, are `errors`. */
    ghost predicate DialsAccount(answers: seq<ConnectAnswer>, backoffs: seq<int>, errors0: seq<Envelope>,
                                 clock: nat -> int, pending: seq<ConnectAnswer>, errors: seq<Envelope>)
    {
      && |backoffs| <= |answers|
      && pending == answers[|backoffs|..]
      && errors == errors0 + Diagnostics(answers[..|backoffs|], backoffs, clock)
      && forall i :: 0 <= i < |backoffs| ==> 0 <= backoffs[i] < MaxBackoff
    }

    /** Dial number `|backoffs|` takes the next pending answer, adds its own
        diagnostic, if any, and counts once more if accepted. */
    lemma DialStep(answers: seq<ConnectAnswer>, backoffs: seq<int>, backoff: int, errors0: seq<Envelope>,
                   clock: nat -> int, pending: seq<ConnectAnswer>, errors: seq<Envelope>)
      requires DialsAccount(answers, backoffs, errors0, clock, pending, errors) && |backoffs| < |answers|
      requires 0 <= backoff < MaxBackoff
      ensures pending != [] && pending[0] == answers[|backoffs|]
      ensures DialsAccount(answers, backoffs + [backoff], errors0, clock, pending[1..],
                           errors + DiagnosticFor(pending[0], backoff, clock(|backoffs|)))
      ensures AcceptedCount(answers[..|backoffs| + 1])
              == AcceptedCount(answers[..|backoffs|]) + if answers[|backoffs|].Accepted? then 1 else 0
    {
      var n := |backoffs|;
      assert answers[..n + 1][..n] == answers[..n] && (backoffs + [backoff])[..n] == backoffs;
      assert answers[n..][1..] == answers[n + 1..];
      assert Diagnostics(answers[..n + 1], backoffs + [backoff], clock)
             == Diagnostics(answers[..n], backoffs, clock) + DiagnosticFor(answers[n], backoff, clock(n));
    }

    /** A metrics snapshot of the two counters. */
    function Emit(): (ctx: Context)
      reads this
      ensures ctx.name == "syslogSink" && |ctx.metrics| == 2
      ensures ctx.metrics[0].name == "sentMessageCount:" + appId && ctx.metrics[0].value == sentMessageCount
      ensures ctx.metrics[1].name == "sentByteCount:" + appId && ctx.metrics[1].value == sentByteCount
    {
      Context("syslogSink", [Metric("sentMessageCount:" + appId, sentMessageCount),
                             Metric("sentByteCount:" + appId, sentByteCount)])
    }

    /** `time.Sleep(backoffStrategy(numberOfTries))`: the delay is drawn and recorded. */
    method Sleep(tries: nat) returns (duration: int)
      modifies this`trace
      ensures AdmissibleDelay(tries, duration)
      ensures trace == old(trace) + [Slept(tries, duration)]
    {
      assert ValidDraw(tries, 0);
      var draw: nat :| ValidDraw(tries, draw);
      duration := Backoff(tries, draw);
      trace := trace + [Slept(tries, duration)];
    }

    /** One connection attempt while disconnected. */
    method AttemptConnect(tries: nat, now: int) returns (connected: bool, nextTries: nat, backoff: int)
      requires syslogWriter.connectAnswers != []
      modifies this`errorChannel, this`trace, syslogWriter`connectAnswers, syslogWriter`connected
      ensures syslogWriter.connectAnswers == old(syslogWriter.connectAnswers)[1..]
      ensures connected == old(syslogWriter.connectAnswers)[0].Accepted?
      ensures !connected ==> AdmissibleDelay(tries + 1, backoff)
      ensures 0 <= backoff < MaxBackoff
      ensures errorChannel == old(errorChannel) + DiagnosticFor(old(syslogWriter.connectAnswers)[0], backoff, now)
      ensures connected ==> syslogWriter.connected && nextTries == 0 && trace == old(trace) + [Dialled]
      ensures !connected ==>
        && syslogWriter.connected == old(syslogWriter.connected)
        && nextTries == tries + 1
        && trace == old(trace) + [DialFailed(tries, backoff)]
    {
      var err := syslogWriter.Connect();
      backoff := 0;
      if err.Some? {
        // the announced backoff is a draw of its own, not the next sleep
        assert ValidDraw(tries + 1, 0);
        var draw: nat :| ValidDraw(tries + 1, draw);
        backoff := Backoff(tries + 1, draw);
        AdmissibleBelowMax(tries + 1, backoff);
        var errorMsg := DialErrorText(drainUrl, formatDuration(backoff), err.value);
        nextTries := tries + 1;
        var logMessage := GenerateMessage(marshal, Err, Loggregator, errorMsg, appId, DiagnosticSource, now);
        if logMessage.Some? {
          errorChannel := errorChannel + [logMessage.value];
        }
        trace := trace + [DialFailed(tries, backoff)];
        connected := false;
        return;
      }
      syslogWriter.SetConnected(true);
      nextTries := 0;
      trace := trace + [Dialled];
      connected := true;
    }

    /** Dispatches one buffered message to the drain and books the outcome. */
    method Deliver(message: Envelope, tries: nat) returns (delivered: bool, nextTries: nat)
      requires NeedsWrite(message) ==> syslogWriter.writeAnswers != []
      modifies this`sentMessageCount, this`sentByteCount, this`trace
      modifies syslogWriter`writeAnswers, syslogWriter`frames, syslogWriter`connected
      ensures syslogWriter.writeAnswers ==
        if NeedsWrite(message) then old(syslogWriter.writeAnswers)[1..] else old(syslogWriter.writeAnswers)
      ensures delivered == (!NeedsWrite(message) || old(syslogWriter.writeAnswers)[0])
      ensures delivered ==>
        && nextTries == 0
        && sentMessageCount == old(sentMessageCount) + 1
        && sentByteCount == old(sentByteCount) + message.RawMessageLength()
        && syslogWriter.frames == old(syslogWriter.frames) + FrameFor(message)
        && syslogWriter.connected == old(syslogWriter.connected)
        && trace == old(trace) + [WriteSucceeded]
      ensures !delivered ==>
        && nextTries == tries + 1
        && !syslogWriter.connected
        && sentMessageCount == old(sentMessageCount)
        && sentByteCount == old(sentByteCount)
        && syslogWriter.frames == old(syslogWriter.frames)
        && trace == old(trace) + [WriteFailed]
    {
      var failed := false;
      var lm := message.logMessage;
      match lm.messageType {
        case Out =>
          failed := syslogWriter.WriteStdout(lm.message, lm.sourceType, lm.timestamp);
        case Err =>
          failed := syslogWriter.WriteStderr(lm.message, lm.sourceType, lm.timestamp);
        case OtherMessageType(_) =>
      }
      delivered := !failed;
      if failed {
        nextTries := tries + 1;
        syslogWriter.SetConnected(false);
        trace := trace + [WriteFailed];
      } else {
        nextTries := 0;
        sentMessageCount := sentMessageCount + 1;
        sentByteCount := sentByteCount + message.RawMessageLength();
        trace := trace + [WriteSucceeded];
      }
    }
  
    /** The connection closes deferred by `count` successful connects. */
    method RunDeferredCloses(count: nat)
      modifies syslogWriter`closes
      ensures syslogWriter.closes == old(syslogWriter.closes) + count
    {
      var closed := 0;
      while closed < count
        invariant closed <= count
        invariant syslogWriter.closes == old(syslogWriter.closes) + closed
      {
        syslogWriter.Close();
        closed := closed + 1;
      }
    }

    /** What the loop has booked after reading `received` messages of `buffer`
        with the drain answering writes by `writes`, from counters
        `messages0`, `bytes0` and frames `frames0`. */
    ghost predicate DeliveriesBooked(buffer: seq<Envelope>, received: nat, writes: seq<bool>,
                                     messages0: nat, bytes0: nat, frames0: seq<Frame>)
      reads this`sentMessageCount, this`sentByteCount, syslogWriter`writeAnswers, syslogWriter`frames
    {
      && received <= |buffer|
      && WritesNeeded(buffer[..received]) <= |writes|
      && syslogWriter.writeAnswers == writes[WritesNeeded(buffer[..received])..]
      && sentMessageCount == messages0 + |Delivered(buffer[..received], writes)|
      && sentByteCount == bytes0 + TotalRawLength(Delivered(buffer[..received], writes))
      && syslogWriter.frames == frames0 + Frames(Delivered(buffer[..received], writes))
    }

    /** What the loop has booked after `|backoffs|` connection attempts
        answered by `answers`, the i-th announcing `backoffs[i]` if refused,
        from error records `errors0`; the i-th dial is stamped `clock(i)`. */
    ghost predicate DialsBooked(answers: seq<ConnectAnswer>, backoffs: seq<int>, errors0: seq<Envelope>,
                                clock: nat -> int)
      reads this`errorChannel, syslogWriter`connectAnswers
    {
      DialsAccount(answers, backoffs, errors0, clock, syslogWriter.connectAnswers, errorChannel)
    }

    /** The trace so far is paced, and its outcomes are those of the
        schedule that made the first `|backoffs|` dials answered by `answers`
        and dispatched the first `received` messages of `buffer`, the drain
        answering writes by `writes`, from a sink connected iff `c0`; that
        schedule leaves the sink as it is now, with counter `tries`. */
    ghost predicate ScheduleBooked(answers: seq<ConnectAnswer>, backoffs: seq<int>, buffer: seq<Envelope>,
                                   received: nat, writes: seq<bool>, c0: bool, tries: nat)
      reads this`trace, syslogWriter`connected
    {
      && |backoffs| <= |answers| && received <= |buffer| && WritesNeeded(buffer[..received]) <= |writes|
      && Paced(trace)
      && Outcomes(trace)
         == Schedule(Stage(c0, 0), answers[..|backoffs|], backoffs, WriteEvents(buffer[..received], writes))
      && ScheduleEnd(Stage(c0, 0), answers[..|backoffs|], backoffs, WriteEvents(buffer[..received], writes))
         == Some(Stage(syslogWriter.connected, tries))
    }

    /** One connection attempt of the loop, with its bookkeeping. */
    method DialNext(tries: nat, clock: nat -> int, ghost answers: seq<ConnectAnswer>, backoffs: seq<int>,
                    ghost errors0: seq<Envelope>, deferredCloses: nat)
      returns (connected: bool, nextTries: nat, nextDeferredCloses: nat, backoff: int)
      requires DialsBooked(answers, backoffs, errors0, clock) && |backoffs| < |answers|
      requires deferredCloses == AcceptedCount(answers[..|backoffs|]) && !syslogWriter.connected
      requires Replay(trace) == Some(tries)
      modifies this`errorChannel, this`trace, syslogWriter`connectAnswers, syslogWriter`connected
      ensures DialsBooked(answers, backoffs + [backoff], errors0, clock)
      ensures connected == answers[|backoffs|].Accepted? && syslogWriter.connected == connected
      ensures nextDeferredCloses == AcceptedCount(answers[..|backoffs| + 1])
      ensures nextDeferredCloses == deferredCloses + if connected then 1 else 0
      ensures Replay(trace) == Some(nextTries)
      ensures trace == old(trace) + [DialEvent(answers[|backoffs|], tries, backoff)]
      ensures nextTries == if connected then 0 else tries + 1
    {
      ghost var history, pending, errors := trace, syslogWriter.connectAnswers, errorChannel;
      connected, nextTries, backoff := AttemptConnect(tries, clock(|backoffs|));
      if connected {
        ReplayExtend(history, tries, Dialled);
      } else {
        ReplayExtend(history, tries, DialFailed(tries, backoff));
      }
      DialStep(answers, backoffs, backoff, errors0, clock, pending, errors);
      nextDeferredCloses := deferredCloses + if connected then 1 else 0;
    }

    /** Dispatch of the next buffered message, with its bookkeeping: a
        failed write is one more failure among the write answers and leaves
        the sink disconnected. */
    method DeliverNext(buffer: seq<Envelope>, received: nat, tries: nat, ghost writes: seq<bool>,
                       ghost messages0: nat, ghost bytes0: nat, ghost frames0: seq<Frame>)
      returns (delivered: bool, nextTries: nat)
      requires received < |buffer| && WritesNeeded(buffer) <= |writes|
      requires DeliveriesBooked(buffer, received, writes, messages0, bytes0, frames0)
      requires Replay(trace) == Some(tries)
      modifies this`sentMessageCount, this`sentByteCount, this`trace
      modifies syslogWriter`writeAnswers, syslogWriter`frames, syslogWriter`connected
      ensures DeliveriesBooked(buffer, received + 1, writes, messages0, bytes0, frames0)
      ensures syslogWriter.connected == (delivered && old(syslogWriter.connected))
      ensures Replay(trace) == Some(nextTries)
      ensures WritesNeeded(buffer[..received + 1]) <= |writes|
      ensures trace == old(trace) + [WriteEvents(buffer[..received + 1], writes)[received]]
      ensures delivered <==> WriteEvents(buffer[..received + 1], writes)[received].WriteSucceeded?
      ensures nextTries == if delivered then 0 else tries + 1
    {
      var message := buffer[received];
      ghost var before := buffer[..received];
      DispatchStep(buffer, received, writes);
      ghost var history, messages, bytes, frames := trace, sentMessageCount, sentByteCount, syslogWriter.frames;
      delivered, nextTries := Deliver(message, tries);
      ReplayExtend(history, tries, if delivered then WriteSucceeded else WriteFailed);
      BookStep(before, message, buffer[..received + 1], writes, messages0, bytes0, frames0, messages, bytes, frames,
               delivered, sentMessageCount, sentByteCount, syslogWriter.frames);
    }

    /** `DeliverNext` while connected: the schedule grows by the dispatch's
        outcome. */
    method DeliverBooked(buffer: seq<Envelope>, received: nat, tries: nat, ghost writes: seq<bool>,
                         ghost messages0: nat, ghost bytes0: nat, ghost frames0: seq<Frame>,
                         ghost answers: seq<ConnectAnswer>, ghost backoffs: seq<int>, ghost c0: bool,
                         ghost errors0: seq<Envelope>, clock: nat -> int)
      returns (delivered: bool, nextTries: nat)
      requires received < |buffer| && WritesNeeded(buffer) <= |writes|
      requires DialsBooked(answers, backoffs, errors0, clock)
      requires DeliveriesBooked(buffer, received, writes, messages0, bytes0, frames0)
      requires Replay(trace) == Some(tries) && syslogWriter.connected
      requires ScheduleBooked(answers, backoffs, buffer, received, writes, c0, tries)
      requires ReadyToDispatch(trace)
      modifies this`sentMessageCount, this`sentByteCount, this`trace
      modifies syslogWriter`writeAnswers, syslogWriter`frames, syslogWriter`connected
      ensures DeliveriesBooked(buffer, received + 1, writes, messages0, bytes0, frames0)
      ensures Replay(trace) == Some(nextTries)
      ensures ScheduleBooked(answers, backoffs, buffer, received + 1, writes, c0, nextTries)
      ensures WritesNeeded(buffer[..received + 1]) <= |writes|
      ensures trace == old(trace) + [WriteEvents(buffer[..received + 1], writes)[received]]
      ensures delivered <==> WriteEvents(buffer[..received + 1], writes)[received].WriteSucceeded?
      ensures nextTries == if delivered then 0 else tries + 1
      ensures syslogWriter.connected == delivered
      ensures PassEnded(trace)
      ensures DialsBooked(answers, backoffs, errors0, clock)
    {
      ghost var history := trace;
      delivered, nextTries := DeliverNext(buffer, received, tries, writes, messages0, bytes0, frames0);
      WriteEventsStep(buffer, received, writes);
      ScheduleDispatchStep(history, Stage(c0, 0), answers[..|backoffs|], backoffs, WriteEvents(buffer[..received], writes),
                           WriteEvents(buffer[..received + 1], writes)[received], tries);
    }

    /** `DialNext` right after the sleep of a pass: the schedule grows by
        the dial's event. */
    method DialBooked(tries: nat, clock: nat -> int, ghost answers: seq<ConnectAnswer>, backoffs: seq<int>,
                      ghost errors0: seq<Envelope>, deferredCloses: nat,
                      ghost buffer: seq<Envelope>, ghost received: nat, ghost writes: seq<bool>, ghost c0: bool,
                      ghost messages0: nat, ghost bytes0: nat, ghost frames0: seq<Frame>)
      returns (nextTries: nat, nextDeferredCloses: nat, backoff: int)
      requires DialsBooked(answers, backoffs, errors0, clock) && |backoffs| < |answers|
      requires DeliveriesBooked(buffer, received, writes, messages0, bytes0, frames0)
      requires deferredCloses == AcceptedCount(answers[..|backoffs|]) && !syslogWriter.connected
      requires Replay(trace) == Some(tries)
      requires ScheduleBooked(answers, backoffs, buffer, received, writes, c0, tries)
      requires trace != [] && trace[|trace| - 1].Slept?
      modifies this`errorChannel, this`trace, syslogWriter`connectAnswers, syslogWriter`connected
      ensures DialsBooked(answers, backoffs + [backoff], errors0, clock)
      ensures DeliveriesBooked(buffer, received, writes, messages0, bytes0, frames0)
      ensures nextDeferredCloses == AcceptedCount(answers[..|backoffs| + 1])
      ensures syslogWriter.connected == answers[|backoffs|].Accepted?
      ensures Replay(trace) == Some(nextTries)
      ensures ScheduleBooked(answers, backoffs + [backoff], buffer, received, writes, c0, nextTries)
      ensures trace == old(trace) + [DialEvent(answers[|backoffs|], tries, backoff)]
      ensures nextTries == if syslogWriter.connected then 0 else tries + 1
    {
      ghost var slept := trace;
      var connected;
      connected, nextTries, nextDeferredCloses, backoff := DialNext(tries, clock, answers, backoffs, errors0, deferredCloses);
      ScheduleDialStep(slept, c0, answers, backoffs, WriteEvents(buffer[..received], writes), tries, backoff);
    }

    /** The backoff sleep that opens a pass: it keeps the trace well timed
        and paced, and adds no outcome. */
    method SleepBooked(tries: nat, ghost answers: seq<ConnectAnswer>, ghost backoffs: seq<int>,
                       ghost buffer: seq<Envelope>, ghost received: nat, ghost writes: seq<bool>, ghost c0: bool,
                       ghost errors0: seq<Envelope>, ghost clock: nat -> int,
                       ghost messages0: nat, ghost bytes0: nat, ghost frames0: seq<Frame>)
      returns (duration: int)
      requires DialsBooked(answers, backoffs, errors0, clock)
      requires DeliveriesBooked(buffer, received, writes, messages0, bytes0, frames0)
      requires Replay(trace) == Some(tries)
      requires ScheduleBooked(answers, backoffs, buffer, received, writes, c0, tries)
      requires PassEnded(trace)
      modifies this`trace
      ensures DialsBooked(answers, backoffs, errors0, clock)
      ensures DeliveriesBooked(buffer, received, writes, messages0, bytes0, frames0)
      ensures Replay(trace) == Some(tries)
      ensures ScheduleBooked(answers, backoffs, buffer, received, writes, c0, tries)
      ensures AdmissibleDelay(tries, duration)
      ensures trace == old(trace) + [Slept(tries, duration)]
    {
      ghost var history := trace;
      duration := Sleep(tries);
      ReplayExtend(history, tries, Slept(tries, duration));
      TraceExtend(history, Slept(tries, duration));
    }

    /** The dial that follows the sleep of a pass: none when connected; when
        disconnected, one if the drain has an answer left. `exhausted`
        reports a disconnected sink with no answer left. */
    method DialIfDisconnected(tries: nat, clock: nat -> int, ghost answers: seq<ConnectAnswer>, backoffs: seq<int>,
                              ghost errors0: seq<Envelope>, deferredCloses: nat,
                              ghost buffer: seq<Envelope>, ghost received: nat, ghost writes: seq<bool>, ghost c0: bool,
                              ghost messages0: nat, ghost bytes0: nat, ghost frames0: seq<Frame>)
      returns (exhausted: bool, tries': nat, deferredCloses': nat, backoffs': seq<int>)
      requires DialsBooked(answers, backoffs, errors0, clock) && deferredCloses == AcceptedCount(answers[..|backoffs|])
      requires DeliveriesBooked(buffer, received, writes, messages0, bytes0, frames0)
      requires Replay(trace) == Some(tries)
      requires ScheduleBooked(answers, backoffs, buffer, received, writes, c0, tries)
      requires trace != [] && trace[|trace| - 1].Slept?
      modifies this`errorChannel, this`trace, syslogWriter`connectAnswers, syslogWriter`connected
      ensures DialsBooked(answers, backoffs', errors0, clock) && deferredCloses' == AcceptedCount(answers[..|backoffs'|])
      ensures DeliveriesBooked(buffer, received, writes, messages0, bytes0, frames0)
      ensures Replay(trace) == Some(tries')
      ensures exhausted <==> !old(syslogWriter.connected) && |backoffs| == |answers|
      ensures exhausted || old(syslogWriter.connected) ==>
        backoffs' == backoffs && syslogWriter.connected == old(syslogWriter.connected)
      ensures !exhausted && !old(syslogWriter.connected) ==>
        |backoffs'| == |backoffs| + 1 && syslogWriter.connected == answers[|backoffs|].Accepted?
      ensures |syslogWriter.connectAnswers| + |backoffs'| == |old(syslogWriter.connectAnswers)| + |backoffs|
      ensures ScheduleBooked(answers, backoffs', buffer, received, writes, c0, tries')
      ensures trace == old(trace)
        + if |backoffs'| == |backoffs| then [] else [DialEvent(answers[|backoffs|], tries, backoffs'[|backoffs|])]
      ensures tries' == if |backoffs'| == |backoffs| then tries else if syslogWriter.connected then 0 else tries + 1
      ensures syslogWriter.connected ==> ReadyToDispatch(trace)
    {
      exhausted, tries', deferredCloses', backoffs' := false, tries, deferredCloses, backoffs;
      if !syslogWriter.IsConnected() {
        if syslogWriter.connectAnswers == [] {
          exhausted := true;
        } else {
          var backoff;
          tries', deferredCloses', backoff :=
            DialBooked(tries, clock, answers, backoffs, errors0, deferredCloses, buffer, received, writes, c0,
                       messages0, bytes0, frames0);
          backoffs' := backoffs + [backoff];
        }
      }
    }

    /** The first half of a pass of the delivery loop: the backoff sleep,
        then, when disconnected, a dial if the drain has an answer left.
        `exhausted` reports a disconnected sink with no answer left. */
    method SleepAndDial(tries: nat, clock: nat -> int, ghost answers: seq<ConnectAnswer>, backoffs: seq<int>,
                        ghost errors0: seq<Envelope>, deferredCloses: nat,
                        ghost buffer: seq<Envelope>, ghost received: nat, ghost writes: seq<bool>, ghost c0: bool,
                        ghost messages0: nat, ghost bytes0: nat, ghost frames0: seq<Frame>)
      returns (exhausted: bool, tries': nat, deferredCloses': nat, backoffs': seq<int>, duration: int)
      requires DialsBooked(answers, backoffs, errors0, clock) && deferredCloses == AcceptedCount(answers[..|backoffs|])
      requires DeliveriesBooked(buffer, received, writes, messages0, bytes0, frames0)
      requires Replay(trace) == Some(tries)
      requires ScheduleBooked(answers, backoffs, buffer, received, writes, c0, tries)
      requires PassEnded(trace)
      modifies this`errorChannel, this`trace, syslogWriter`connectAnswers, syslogWriter`connected
      ensures DialsBooked(answers, backoffs', errors0, clock) && deferredCloses' == AcceptedCount(answers[..|backoffs'|])
      ensures DeliveriesBooked(buffer, received, writes, messages0, bytes0, frames0)
      ensures Replay(trace) == Some(tries')
      ensures exhausted <==> !old(syslogWriter.connected) && |backoffs| == |answers|
      ensures exhausted || old(syslogWriter.connected) ==>
        backoffs' == backoffs && syslogWriter.connected == old(syslogWriter.connected)
      ensures !exhausted && !old(syslogWriter.connected) ==>
        |backoffs'| == |backoffs| + 1 && syslogWriter.connected == answers[|backoffs|].Accepted?
      ensures |syslogWriter.connectAnswers| + |backoffs'| == |old(syslogWriter.connectAnswers)| + |backoffs|
      ensures ScheduleBooked(answers, backoffs', buffer, received, writes, c0, tries')
      ensures AdmissibleDelay(tries, duration)
      ensures trace == old(trace) + [Slept(tries, duration)]
        + if |backoffs'| == |backoffs| then [] else [DialEvent(answers[|backoffs|], tries, backoffs'[|backoffs|])]
      ensures tries' == if |backoffs'| == |backoffs| then tries else if syslogWriter.connected then 0 else tries + 1
      ensures syslogWriter.connected ==> ReadyToDispatch(trace)
    {
      duration := SleepBooked(tries, answers, backoffs, buffer, received, writes, c0, errors0, clock,
                              messages0, bytes0, frames0);
      exhausted, tries', deferredCloses', backoffs' :=
        DialIfDisconnected(tries, clock, answers, backoffs, errors0, deferredCloses, buffer, received, writes, c0,
                           messages0, bytes0, frames0);
    }

    /** The rest of a pass once the sleep and any dial are done: a
        connected sink returns on the buffer's close or dispatches the next
        buffered message; a disconnected one, whose dial was refused, goes
        round again. */
    method FinishPass(buffer: seq<Envelope>, received: nat, tries: nat, deferredCloses: nat, clock: nat -> int,
                      ghost answers: seq<ConnectAnswer>, ghost backoffs: seq<int>, ghost writes: seq<bool>,
                      ghost errors0: seq<Envelope>, ghost closes0: nat,
                      ghost messages0: nat, ghost bytes0: nat, ghost frames0: seq<Frame>, ghost c0: bool)
      returns (stop: bool, received': nat, tries': nat)
      requires WritesNeeded(buffer) <= |writes|
      requires DialsBooked(answers, backoffs, errors0, clock) && deferredCloses == AcceptedCount(answers[..|backoffs|])
      requires syslogWriter.closes == closes0
      requires DeliveriesBooked(buffer, received, writes, messages0, bytes0, frames0)
      requires Replay(trace) == Some(tries)
      requires ScheduleBooked(answers, backoffs, buffer, received, writes, c0, tries)
      requires syslogWriter.connected ==> ReadyToDispatch(trace)
      requires !syslogWriter.connected ==> trace != [] && trace[|trace| - 1].DialFailed?
      modifies this`sentMessageCount, this`sentByteCount, this`trace
      modifies syslogWriter`connected, syslogWriter`writeAnswers, syslogWriter`frames, syslogWriter`closes
      ensures DialsBooked(answers, backoffs, errors0, clock)
      ensures DeliveriesBooked(buffer, received', writes, messages0, bytes0, frames0)
      ensures Replay(trace) == Some(tries')
      ensures stop <==> old(syslogWriter.connected) && received == |buffer|
      ensures stop ==>
        && received' == |buffer| && syslogWriter.connected
        && syslogWriter.closes == closes0 + deferredCloses
      ensures !stop ==> syslogWriter.closes == closes0 && PassEnded(trace)
      ensures !stop && old(syslogWriter.connected) ==> received' == received + 1
      ensures ScheduleBooked(answers, backoffs, buffer, received', writes, c0, tries')
      ensures received' <= |buffer| && WritesNeeded(buffer[..received']) <= |writes|
      ensures received <= received' <= received + 1
      ensures trace == old(trace) + if received' == received then [] else [WriteEvents(buffer[..received'], writes)[received]]
    {
      stop, received', tries' := false, received, tries;
      if syslogWriter.IsConnected() {
        if received == |buffer| {
          // the buffer's output channel is closed: the deferred closes run
          RunDeferredCloses(deferredCloses);
          stop := true;
        } else {
          var delivered;
          delivered, tries' := DeliverBooked(buffer, received, tries, writes, messages0, bytes0, frames0,
                                             answers, backoffs, c0, errors0, clock);
          received' := received + 1;
        }
      }
      // otherwise a refused dial: the loop sleeps and dials again
    }

    /** One pass of the delivery loop: a sleep, a connection attempt when
        disconnected, then, if connected, the next buffered message or the
        buffer's close. `stop` reports that the loop returned (or, with
        `ConnectAnswersExhausted`, that it would dial again with no answer). */
    method Iterate(buffer: seq<Envelope>, received: nat, tries: nat, deferredCloses: nat, clock: nat -> int,
                   ghost answers: seq<ConnectAnswer>, backoffs: seq<int>, ghost writes: seq<bool>,
                   ghost errors0: seq<Envelope>, ghost closes0: nat,
                   ghost messages0: nat, ghost bytes0: nat, ghost frames0: seq<Frame>, ghost c0: bool)
      returns (stop: bool, exit: Exit, received': nat, tries': nat, deferredCloses': nat, backoffs': seq<int>,
               duration: int)
      requires WritesNeeded(buffer) <= |writes|
      requires DialsBooked(answers, backoffs, errors0, clock) && deferredCloses == AcceptedCount(answers[..|backoffs|])
      requires syslogWriter.closes == closes0
      requires DeliveriesBooked(buffer, received, writes, messages0, bytes0, frames0)
      requires Replay(trace) == Some(tries)
      requires ScheduleBooked(answers, backoffs, buffer, received, writes, c0, tries)
      requires PassEnded(trace)
      modifies this`sentMessageCount, this`sentByteCount, this`errorChannel, this`trace
      modifies syslogWriter`connectAnswers, syslogWriter`connected, syslogWriter`writeAnswers
      modifies syslogWriter`frames, syslogWriter`closes
      ensures DialsBooked(answers, backoffs', errors0, clock)
      ensures DeliveriesBooked(buffer, received', writes, messages0, bytes0, frames0)
      ensures Replay(trace) == Some(tries')
      ensures received <= received' <= received + 1
      ensures !stop ==> deferredCloses' == AcceptedCount(answers[..|backoffs'|]) && syslogWriter.closes == closes0
      ensures !stop ==>
        |syslogWriter.connectAnswers| + (|buffer| - received') < |old(syslogWriter.connectAnswers)| + (|buffer| - received)
      ensures stop && exit == BufferClosed ==>
        && received' == |buffer| && syslogWriter.connected
        && syslogWriter.closes == closes0 + AcceptedCount(answers[..|backoffs'|])
      ensures stop && exit == ConnectAnswersExhausted ==>
        && syslogWriter.connectAnswers == [] && !syslogWriter.connected
        && syslogWriter.closes == closes0
      ensures !stop ==> exit == BufferClosed
      ensures !stop ==> PassEnded(trace)
      ensures ScheduleBooked(answers, backoffs', buffer, received', writes, c0, tries')
      ensures AdmissibleDelay(tries, duration) && |backoffs| <= |backoffs'| <= |backoffs| + 1
      ensures trace == old(trace) + [Slept(tries, duration)]
        + (if |backoffs'| == |backoffs| then [] else [DialEvent(answers[|backoffs|], tries, backoffs'[|backoffs|])])
        + (if received' == received then [] else [WriteEvents(buffer[..received'], writes)[received]])
    {
      stop, exit, received' := false, BufferClosed, received;
      var exhausted;
      exhausted, tries', deferredCloses', backoffs', duration :=
        SleepAndDial(tries, clock, answers, backoffs, errors0, deferredCloses, buffer, received, writes, c0,
                     messages0, bytes0, frames0);
      if exhausted {
        stop, exit := true, ConnectAnswersExhausted;
      } else {
        stop, received', tries' := FinishPass(buffer, received, tries', deferredCloses', clock, answers, backoffs',
                                              writes, errors0, closes0, messages0, bytes0, frames0, c0);
      }
    }

    /** The delivery loop of one drain, reading the buffered messages `buffer`
        and then the buffer's close. `clock(i)` is the clock reading at the
        i-th dial; `trace` records this run from its start. */
    method Run(buffer: seq<Envelope>, clock: nat -> int) returns (exit: Exit, received: nat, backoffs: seq<int>)
      requires WritesNeeded(buffer) <= |syslogWriter.writeAnswers|
      modifies this`sentMessageCount, this`sentByteCount, this`errorChannel, this`trace
      modifies syslogWriter`connectAnswers, syslogWriter`connected, syslogWriter`writeAnswers
      modifies syslogWriter`frames, syslogWriter`closes
      ensures received <= |buffer|
      ensures exit == BufferClosed ==> received == |buffer| && syslogWriter.connected
      ensures exit == ConnectAnswersExhausted ==> syslogWriter.connectAnswers == [] && !syslogWriter.connected
      ensures |backoffs| <= |old(syslogWriter.connectAnswers)|
      ensures syslogWriter.connectAnswers == old(syslogWriter.connectAnswers)[|backoffs|..]
      ensures errorChannel
              == old(errorChannel) + Diagnostics(old(syslogWriter.connectAnswers)[..|backoffs|], backoffs, clock)
      ensures Announced(trace) == RefusedBackoffs(old(syslogWriter.connectAnswers)[..|backoffs|], backoffs)
      ensures forall i :: 0 <= i < |backoffs| ==> 0 <= backoffs[i] < MaxBackoff
      ensures exit == BufferClosed && |backoffs| > 0 ==> old(syslogWriter.connectAnswers)[|backoffs| - 1].Accepted?
      ensures syslogWriter.closes == old(syslogWriter.closes)
              + if exit == BufferClosed then AcceptedCount(old(syslogWriter.connectAnswers)[..|backoffs|]) else 0
      ensures WritesNeeded(buffer[..received]) <= |old(syslogWriter.writeAnswers)|
      ensures AcceptedCount(old(syslogWriter.connectAnswers)[..|backoffs|])
              + (if exit == ConnectAnswersExhausted then 1 else 0)
              == (if old(syslogWriter.connected) then 0 else 1)
              + Failures(old(syslogWriter.writeAnswers)[..WritesNeeded(buffer[..received])])
      ensures syslogWriter.writeAnswers == old(syslogWriter.writeAnswers)[WritesNeeded(buffer[..received])..]
      ensures sentMessageCount == old(sentMessageCount) + |Delivered(buffer[..received], old(syslogWriter.writeAnswers))|
      ensures sentByteCount
              == old(sentByteCount) + TotalRawLength(Delivered(buffer[..received], old(syslogWriter.writeAnswers)))
      ensures syslogWriter.frames
              == old(syslogWriter.frames) + Frames(Delivered(buffer[..received], old(syslogWriter.writeAnswers)))
      ensures WellTimed(trace)
      ensures trace != [] && trace[0] == Slept(0, 0) && Paced(trace)
      ensures Outcomes(trace) == Schedule(Stage(old(syslogWriter.connected), 0), old(syslogWriter.connectAnswers)[..|backoffs|],
                                          backoffs, WriteEvents(buffer[..received], old(syslogWriter.writeAnswers)))
      ensures forall e :: e in trace && e.Slept? ==> AdmissibleDelay(e.tries, e.duration)
      ensures forall e :: e in trace && e.DialFailed? ==> AdmissibleDelay(e.tries + 1, e.announced)
    {
      ghost var answers, writes, c0 := syslogWriter.connectAnswers, syslogWriter.writeAnswers, syslogWriter.connected;
      assert buffer[..0] == [] && writes[0..] == writes;
      assert syslogWriter.frames + Frames(Delivered([], writes)) == syslogWriter.frames;
      exit, received, backoffs := Loop(buffer, clock, answers, writes, errorChannel,
                                       syslogWriter.closes, sentMessageCount, sentByteCount, syslogWriter.frames, c0);
      WriteEventsAreDispatches(buffer[..received], writes);
      WriteEventsCountFailures(buffer[..received], writes);
      ScheduleAccounting(Stage(c0, 0), answers[..|backoffs|], backoffs, WriteEvents(buffer[..received], writes));
      ScheduleAnnounces(Stage(c0, 0), answers[..|backoffs|], backoffs, WriteEvents(buffer[..received], writes));
      OutcomesAnnounce(trace);
      WellTimedSleepsBounded(trace);
    }

    /** The loop of `Run`, from its first sleep. */
    method Loop(buffer: seq<Envelope>, clock: nat -> int, ghost answers: seq<ConnectAnswer>, ghost writes: seq<bool>,
                ghost errors0: seq<Envelope>, ghost closes0: nat,
                ghost messages0: nat, ghost bytes0: nat, ghost frames0: seq<Frame>, ghost c0: bool)
      returns (exit: Exit, received: nat, backoffs: seq<int>)
      requires WritesNeeded(buffer) <= |writes|
      requires syslogWriter.connectAnswers == answers && errorChannel == errors0
      requires syslogWriter.closes == closes0 && syslogWriter.connected == c0
      requires DeliveriesBooked(buffer, 0, writes, messages0, bytes0, frames0)
      modifies this`sentMessageCount, this`sentByteCount, this`errorChannel, this`trace
      modifies syslogWriter`connectAnswers, syslogWriter`connected, syslogWriter`writeAnswers
      modifies syslogWriter`frames, syslogWriter`closes
      ensures DialsBooked(answers, backoffs, errors0, clock)
      ensures DeliveriesBooked(buffer, received, writes, messages0, bytes0, frames0)
      ensures WellTimed(trace)
      ensures exit == BufferClosed ==>
        && received == |buffer| && syslogWriter.connected
        && syslogWriter.closes == closes0 + AcceptedCount(answers[..|backoffs|])
      ensures exit == ConnectAnswersExhausted ==>
        syslogWriter.connectAnswers == [] && !syslogWriter.connected && syslogWriter.closes == closes0
      ensures trace != [] && trace[0] == Slept(0, 0) && Paced(trace)
      ensures WritesNeeded(buffer[..received]) <= |writes|
      ensures Outcomes(trace)
              == Schedule(Stage(c0, 0), answers[..|backoffs|], backoffs, WriteEvents(buffer[..received], writes))
      ensures var end := ScheduleEnd(Stage(c0, 0), answers[..|backoffs|], backoffs, WriteEvents(buffer[..received], writes));
        end.Some? && end.value.connected == syslogWriter.connected
    {
      trace := [];
      backoffs := [];
      assert answers[..0] == [] && answers[0..] == answers && buffer[..0] == [] && writes[..0] == [];
      assert errorChannel + Diagnostics([], [], clock) == errorChannel;
      var numberOfTries: nat := 0;
      var deferredCloses: nat := 0;
      received := 0;
      while true
        invariant DialsBooked(answers, backoffs, errors0, clock)
        invariant deferredCloses == AcceptedCount(answers[..|backoffs|])
        invariant syslogWriter.closes == closes0
        invariant DeliveriesBooked(buffer, received, writes, messages0, bytes0, frames0)
        invariant Replay(trace) == Some(numberOfTries)
        invariant ScheduleBooked(answers, backoffs, buffer, received, writes, c0, numberOfTries)
        invariant trace == [] || trace[0] == Slept(0, 0)
        invariant PassEnded(trace)
        decreases |syslogWriter.connectAnswers| + (|buffer| - received)
      {
        var stop, duration;
        stop, exit, received, numberOfTries, deferredCloses, backoffs, duration :=
          Iterate(buffer, received, numberOfTries, deferredCloses, clock, answers, backoffs, writes,
                  errors0, closes0, messages0, bytes0, frames0, c0);
        if stop {
          return;
        }
      }
    }
  }

  lemma FramesAppend(msgs: seq<Envelope>, m: Envelope)
    ensures Frames(msgs + [m]) == Frames(msgs) + FrameFor(m)
    ensures TotalRawLength(msgs + [m]) == TotalRawLength(msgs) + m.RawMessageLength()
  {
    assert (msgs + [m])[..|msgs|] == msgs;
  }

  lemma DeliverStep(msgs: seq<Envelope>, m: Envelope, answers: seq<bool>)
    requires WritesNeeded(msgs + [m]) <= |answers|
    ensures WritesNeeded(msgs + [m]) == WritesNeeded(msgs) + if NeedsWrite(m) then 1 else 0
    ensures var ok := !NeedsWrite(m) || answers[WritesNeeded(msgs)];
      && Delivered(msgs + [m], answers) == Delivered(msgs, answers) + (if ok then [m] else [])
      && Frames(Delivered(msgs + [m], answers)) == Frames(Delivered(msgs, answers)) + (if ok then FrameFor(m) else [])
      && TotalRawLength(Delivered(msgs + [m], answers))
         == TotalRawLength(Delivered(msgs, answers)) + (if ok then m.RawMessageLength() else 0)
  {
    assert (msgs + [m])[..|msgs|] == msgs;
    var ok := !NeedsWrite(m) || answers[WritesNeeded(msgs)];
    var d := Delivered(msgs, answers);
    assert Delivered(msgs + [m], answers) == d + (if ok then [m] else []);
    if ok {
      FramesAppend(d, m);
    } else {
      assert d + [] == d;
    }
  }

  /** A dispatch adds one failure to the write answers consumed exactly
      when it needed a write and that write failed. */
  lemma FailuresStep(msgs: seq<Envelope>, m: Envelope, answers: seq<bool>)
    requires WritesNeeded(msgs + [m]) <= |answers|
    ensures var ok := !NeedsWrite(m) || answers[WritesNeeded(msgs)];
      Failures(answers[..WritesNeeded(msgs + [m])]) == Failures(answers[..WritesNeeded(msgs)]) + if ok then 0 else 1
  {
    assert (msgs + [m])[..|msgs|] == msgs;
    var n := WritesNeeded(msgs);
    if NeedsWrite(m) {
      assert answers[..n + 1][..n] == answers[..n];
    }
  }

  /** The counters and frames booked for `before` advance to those booked
      for `before + [m]` by one dispatch whose outcome is `ok`. */
  lemma BookStep(before: seq<Envelope>, m: Envelope, after: seq<Envelope>, writes: seq<bool>,
                 messages0: nat, bytes0: nat, frames0: seq<Frame>,
                 messages: nat, bytes: nat, frames: seq<Frame>, ok: bool,
                 messages': nat, bytes': nat, frames': seq<Frame>)
    requires after == before + [m] && WritesNeeded(after) <= |writes|
    requires var sent := Delivered(before, writes);
      && messages == messages0 + |sent|
      && bytes == bytes0 + TotalRawLength(sent)
      && frames == frames0 + Frames(sent)
    requires ok == (!NeedsWrite(m) || writes[WritesNeeded(before)])
    requires ok ==> messages' == messages + 1 && bytes' == bytes + m.RawMessageLength()
                    && frames' == frames + FrameFor(m)
    requires !ok ==> messages' == messages && bytes' == bytes && frames' == frames
    ensures messages' == messages0 + |Delivered(after, writes)|
    ensures bytes' == bytes0 + TotalRawLength(Delivered(after, writes))
    ensures frames' == frames0 + Frames(Delivered(after, writes))
  {
    DeliverStep(before, m, writes);
  }

  lemma ReplayExtend(events: seq<SinkEvent>, tries: nat, e: SinkEvent)
    requires Replay(events) == Some(tries)
    requires e.Slept? ==> e.tries == tries && AdmissibleDelay(e.tries, e.duration)
    requires e.DialFailed? ==> e.tries == tries && AdmissibleDelay(tries + 1, e.announced)
    ensures Replay(events + [e]) == Some(match e
      case Slept(_, _) => tries
      case DialFailed(_, _) => tries + 1
      case WriteFailed => tries + 1
      case _ => 0)
  {
    assert (events + [e])[..|events|] == events;
  }

  /** One more event adds itself to the outcomes unless it is a sleep, and
      keeps the trace paced when it follows the sleep or dial it must. */
  lemma TraceExtend(events: seq<SinkEvent>, e: SinkEvent)
    ensures e.Slept? ==> Outcomes(events + [e]) == Outcomes(events)
    ensures !e.Slept? ==> Outcomes(events + [e]) == Outcomes(events) + [e]
    ensures Paced(events) && MayFollow(events, e) ==> Paced(events + [e])
  {
    assert (events + [e])[..|events|] == events;
  }

  /** A dial made right after a sleep, while the schedule booked so far
      leaves the sink disconnected at counter `tries`, extends the schedule
      by that dial's event. */
  lemma ScheduleDialStep(events: seq<SinkEvent>, c0: bool, answers: seq<ConnectAnswer>, backoffs: seq<int>,
                         dispatches: seq<SinkEvent>, tries: nat, b: int)
    requires |backoffs| < |answers|
    requires Paced(events) && events != [] && events[|events| - 1].Slept?
    requires Outcomes(events) == Schedule(Stage(c0, 0), answers[..|backoffs|], backoffs, dispatches)
    requires ScheduleEnd(Stage(c0, 0), answers[..|backoffs|], backoffs, dispatches) == Some(Stage(false, tries))
    ensures var e := DialEvent(answers[|backoffs|], tries, b);
      && Paced(events + [e])
      && Outcomes(events + [e]) == Schedule(Stage(c0, 0), answers[..|backoffs| + 1], backoffs + [b], dispatches)
      && ScheduleEnd(Stage(c0, 0), answers[..|backoffs| + 1], backoffs + [b], dispatches)
         == Some(if answers[|backoffs|].Accepted? then Stage(true, 0) else Stage(false, tries + 1))
  {
    var n := |backoffs|;
    assert answers[..n + 1] == answers[..n] + [answers[n]];
    ScheduleDial(Stage(c0, 0), answers[..n], backoffs, dispatches, answers[n], b);
    TraceExtend(events, DialEvent(answers[n], tries, b));
  }

  /** A dispatch made right after a sleep or an accepted dial, while the
      schedule booked so far leaves the sink connected at counter `tries`,
      extends the schedule by that dispatch's outcome `d`. */
  lemma ScheduleDispatchStep(events: seq<SinkEvent>, s: Stage, answers: seq<ConnectAnswer>, backoffs: seq<int>,
                             dispatches: seq<SinkEvent>, d: SinkEvent, tries: nat)
    requires |backoffs| == |answers| && (d == WriteSucceeded || d == WriteFailed)
    requires Paced(events) && ReadyToDispatch(events)
    requires Outcomes(events) == Schedule(s, answers, backoffs, dispatches)
    requires ScheduleEnd(s, answers, backoffs, dispatches) == Some(Stage(true, tries))
    ensures Paced(events + [d])
    ensures Outcomes(events + [d]) == Schedule(s, answers, backoffs, dispatches + [d])
    ensures ScheduleEnd(s, answers, backoffs, dispatches + [d])
            == Some(if d == WriteSucceeded then Stage(true, 0) else Stage(false, tries + 1))
  {
    ScheduleDispatch(s, answers, backoffs, dispatches, d);
    TraceExtend(events, d);
  }

  /** Dispatching one more message adds its outcome to the dispatch
      outcomes: a success exactly when the message needs no write or the
      drain accepts its write. */
  /** Dispatching the message at `received` needs one more write iff the
      message is written, answered by the next write answer, and its outcome
      event says whether it was delivered. */
  lemma DispatchStep(msgs: seq<Envelope>, received: nat, writes: seq<bool>)
    requires received < |msgs| && WritesNeeded(msgs) <= |writes|
    ensures msgs[..received + 1] == msgs[..received] + [msgs[received]]
    ensures WritesNeeded(msgs[..received + 1]) <= |writes|
    ensures WritesNeeded(msgs[..received + 1])
            == WritesNeeded(msgs[..received]) + if NeedsWrite(msgs[received]) then 1 else 0
    ensures NeedsWrite(msgs[received]) ==>
      writes[WritesNeeded(msgs[..received])..][1..] == writes[WritesNeeded(msgs[..received + 1])..]
    ensures var ok := !NeedsWrite(msgs[received]) || writes[WritesNeeded(msgs[..received])];
      WriteEvents(msgs[..received + 1], writes)[received] == if ok then WriteSucceeded else WriteFailed
  {
    assert msgs[..received + 1] == msgs[..received] + [msgs[received]];
    WritesNeededPrefix(msgs, received + 1);
    DeliverStep(msgs[..received], msgs[received], writes);
  }

  lemma WriteEventsStep(msgs: seq<Envelope>, received: nat, writes: seq<bool>)
    requires received < |msgs| && WritesNeeded(msgs[..received + 1]) <= |writes|
    ensures WritesNeeded(msgs[..received]) <= |writes|
    ensures var d := WriteEvents(msgs[..received + 1], writes)[received];
      && WriteEvents(msgs[..received + 1], writes) == WriteEvents(msgs[..received], writes) + [d]
      && (d == WriteSucceeded || d == WriteFailed)
  {
    assert msgs[..received + 1][..received] == msgs[..received];
  }

  lemma {:induction false} WritesNeededPrefix(msgs: seq<Envelope>, k: nat)
    requires k <= |msgs|
    ensures WritesNeeded(msgs[..k]) <= WritesNeeded(msgs)
    decreases |msgs|
  {
    if k < |msgs| {
      assert msgs[..|msgs| - 1][..k] == msgs[..k];
      WritesNeededPrefix(msgs[..|msgs| - 1], k);
    } else {
      assert msgs[..k] == msgs;
    }
  }

  // ------------------------------------------------------------------
  // What a run delivers

  /** How many of the answers report a failed write. */
  function Failures(answers: seq<bool>): nat
  {
    if answers == [] then 0
    else Failures(answers[..|answers| - 1]) + if answers[|answers| - 1] then 0 else 1
  }

  /** Every buffered message is either counted as sent or lost to exactly one
      failed write: a failed message is dropped, never retried. */
  lemma {:induction false} DeliveredLosesOnlyFailedWrites(msgs: seq<Envelope>, answers: seq<bool>)
    requires WritesNeeded(msgs) <= |answers|
    ensures |Delivered(msgs, answers)| + Failures(answers[..WritesNeeded(msgs)]) == |msgs|
    decreases |msgs|
  {
    if msgs != [] {
      var prefix := msgs[..|msgs| - 1];
      DeliveredLosesOnlyFailedWrites(prefix, answers);
      var n := WritesNeeded(prefix);
      if NeedsWrite(msgs[|msgs| - 1]) {
        assert answers[..n + 1][..n] == answers[..n];
      }
    }
  }

  /** With a drain that accepts every write, everything buffered is counted. */
  lemma {:induction false} DeliveredAllWhenWritesSucceed(msgs: seq<Envelope>, answers: seq<bool>)
    requires WritesNeeded(msgs) <= |answers|
    requires forall i :: 0 <= i < |answers| ==> answers[i]
    ensures Delivered(msgs, answers) == msgs
    decreases |msgs|
  {
    if msgs != [] {
      var prefix := msgs[..|msgs| - 1];
      DeliveredAllWhenWritesSucceed(prefix, answers);
      assert prefix + [msgs[|msgs| - 1]] == msgs;
    }
  }

  /** The counted messages are buffered messages, so the byte counter
      never exceeds the raw size of the buffer. */
  lemma {:induction false} DeliveredWithinBuffer(msgs: seq<Envelope>, answers: seq<bool>)
    requires WritesNeeded(msgs) <= |answers|
    ensures |Delivered(msgs, answers)| <= |msgs|
    ensures TotalRawLength(Delivered(msgs, answers)) <= TotalRawLength(msgs)
    ensures forall e :: e in Delivered(msgs, answers) ==> e in msgs
    decreases |msgs|
  {
    if msgs != [] {
      var prefix := msgs[..|msgs| - 1];
      var m := msgs[|msgs| - 1];
      assert msgs == prefix + [m];
      WritesNeededPrefix(msgs, |msgs| - 1);
      DeliveredWithinBuffer(prefix, answers);
      DeliverStep(prefix, m, answers);
    }
  }

  // ------------------------------------------------------------------
  // What a schedule accounts for

  /** The number of failed dispatches among `events`. */
  function FailedDispatches(events: seq<SinkEvent>): nat
  {
    if events == [] then 0
    else FailedDispatches(events[..|events| - 1]) + if events[|events| - 1] == WriteFailed then 1 else 0
  }

  lemma {:induction false} FailedDispatchesCons(e: SinkEvent, rest: seq<SinkEvent>)
    ensures FailedDispatches([e] + rest) == (if e == WriteFailed then 1 else 0) + FailedDispatches(rest)
    decreases |rest|
  {
    if rest == [] {
      assert [e] + rest == [e] && [e][..0] == [];
    } else {
      var k := |rest| - 1;
      assert ([e] + rest)[..|rest|] == [e] + rest[..k];
      FailedDispatchesCons(e, rest[..k]);
    }
  }

  lemma {:induction false} AcceptedCountCons(a: ConnectAnswer, rest: seq<ConnectAnswer>)
    ensures AcceptedCount([a] + rest) == (if a.Accepted? then 1 else 0) + AcceptedCount(rest)
    decreases |rest|
  {
    if rest == [] {
      assert [a] + rest == [a] && [a][..0] == [];
    } else {
      var k := |rest| - 1;
      assert ([a] + rest)[..|rest|] == [a] + rest[..k];
      AcceptedCountCons(a, rest[..k]);
    }
  }

  /** The dispatch outcomes are dispatch events, and the failed ones are
      exactly the refused writes. */
  lemma {:induction false} WriteEventsAreDispatches(msgs: seq<Envelope>, writes: seq<bool>)
    requires WritesNeeded(msgs) <= |writes|
    ensures forall i :: 0 <= i < |msgs| ==> IsDispatch(WriteEvents(msgs, writes)[i])
    decreases |msgs|
  {
    if msgs != [] {
      var k := |msgs| - 1;
      assert msgs[..k + 1] == msgs;
      WriteEventsStep(msgs, k, writes);
      WriteEventsAreDispatches(msgs[..k], writes);
      var r := WriteEvents(msgs, writes);
      forall i | 0 <= i < |msgs|
        ensures IsDispatch(r[i])
      {
        if i < k {
          assert r[i] == WriteEvents(msgs[..k], writes)[i];
        }
      }
    }
  }

  lemma {:induction false} WriteEventsCountFailures(msgs: seq<Envelope>, writes: seq<bool>)
    requires WritesNeeded(msgs) <= |writes|
    ensures FailedDispatches(WriteEvents(msgs, writes)) == Failures(writes[..WritesNeeded(msgs)])
    decreases |msgs|
  {
    if msgs != [] {
      var k := |msgs| - 1;
      assert msgs[..k + 1] == msgs;
      WriteEventsStep(msgs, k, writes);
      WriteEventsCountFailures(msgs[..k], writes);
      assert msgs == msgs[..k] + [msgs[k]];
      FailuresStep(msgs[..k], msgs[k], writes);
      var r := WriteEvents(msgs, writes);
      assert r[..k] == WriteEvents(msgs[..k], writes);
    }
  }

  /** Along a schedule that uses up its answers and dispatches, every
      accepted dial connects the sink and every failed dispatch disconnects
      it, and nothing else changes the connection; a refused last dial
      leaves the sink disconnected. */
  lemma {:induction false} ScheduleAccounting(s: Stage, answers: seq<ConnectAnswer>, backoffs: seq<int>,
                                              dispatches: seq<SinkEvent>)
    requires |backoffs| == |answers|
    requires forall i :: 0 <= i < |dispatches| ==> IsDispatch(dispatches[i])
    requires ScheduleEnd(s, answers, backoffs, dispatches).Some?
    ensures var end := ScheduleEnd(s, answers, backoffs, dispatches).value;
      AcceptedCount(answers) + (if end.connected then 0 else 1)
      == (if s.connected then 0 else 1) + FailedDispatches(dispatches)
    ensures |answers| > 0 && answers[|answers| - 1].Refused? ==>
      !ScheduleEnd(s, answers, backoffs, dispatches).value.connected
    decreases |answers| + |dispatches|
  {
    if !s.connected {
      if answers != [] {
        var e := DialEvent(answers[0], s.tries, backoffs[0]);
        ScheduleAccounting(After(s, e), answers[1..], backoffs[1..], dispatches);
        assert answers == [answers[0]] + answers[1..];
        AcceptedCountCons(answers[0], answers[1..]);
      }
    } else if dispatches != [] {
      ScheduleAccounting(After(s, dispatches[0]), answers, backoffs, dispatches[1..]);
      assert dispatches == [dispatches[0]] + dispatches[1..];
      FailedDispatchesCons(dispatches[0], dispatches[1..]);
    }
  }

  lemma {:induction false} AnnouncedCons(e: SinkEvent, rest: seq<SinkEvent>)
    ensures Announced([e] + rest) == (if e.DialFailed? then [e.announced] else []) + Announced(rest)
    decreases |rest|
  {
    if rest == [] {
      assert [e] + rest == [e] && [e][..0] == [];
    } else {
      var k := |rest| - 1;
      assert ([e] + rest)[..|rest|] == [e] + rest[..k];
      AnnouncedCons(e, rest[..k]);
    }
  }

  lemma {:induction false} RefusedBackoffsCons(a: ConnectAnswer, b: int, answers: seq<ConnectAnswer>, backoffs: seq<int>)
    requires |backoffs| == |answers|
    ensures RefusedBackoffs([a] + answers, [b] + backoffs)
            == (if a.Refused? then [b] else []) + RefusedBackoffs(answers, backoffs)
    decreases |answers|
  {
    if answers == [] {
      assert [a] + answers == [a] && [a][..0] == [] && [b] + backoffs == [b] && [b][..0] == [];
    } else {
      var k := |answers| - 1;
      assert ([a] + answers)[..|answers|] == [a] + answers[..k];
      assert ([b] + backoffs)[..|answers|] == [b] + backoffs[..k];
      RefusedBackoffsCons(a, b, answers[..k], backoffs[..k]);
    }
  }

  /** Only refused dials announce a backoff, so the outcomes announce what
      the whole trace does. */
  lemma {:induction false} OutcomesAnnounce(events: seq<SinkEvent>)
    ensures Announced(Outcomes(events)) == Announced(events)
    decreases |events|
  {
    if events != [] {
      var k := |events| - 1;
      OutcomesAnnounce(events[..k]);
      var o := Outcomes(events[..k]);
      if events[k].Slept? {
        assert Outcomes(events) == o;
        assert Announced(events) == Announced(events[..k]) + [];
      } else {
        assert Outcomes(events) == o + [events[k]];
        assert (o + [events[k]])[..|o|] == o;
      }
    }
  }

  /** A schedule that uses up its answers announces, in order, the backoffs
      of exactly the refused answers. */
  lemma {:induction false} ScheduleAnnounces(s: Stage, answers: seq<ConnectAnswer>, backoffs: seq<int>,
                                             dispatches: seq<SinkEvent>)
    requires |backoffs| == |answers|
    requires forall i :: 0 <= i < |dispatches| ==> IsDispatch(dispatches[i])
    requires ScheduleEnd(s, answers, backoffs, dispatches).Some?
    ensures Announced(Schedule(s, answers, backoffs, dispatches)) == RefusedBackoffs(answers, backoffs)
    decreases |answers| + |dispatches|
  {
    if !s.connected {
      if answers != [] {
        var e := DialEvent(answers[0], s.tries, backoffs[0]);
        ScheduleAnnounces(After(s, e), answers[1..], backoffs[1..], dispatches);
        AnnouncedCons(e, Schedule(After(s, e), answers[1..], backoffs[1..], dispatches));
        assert answers == [answers[0]] + answers[1..] && backoffs == [backoffs[0]] + backoffs[1..];
        RefusedBackoffsCons(answers[0], backoffs[0], answers[1..], backoffs[1..]);
      }
    } else if dispatches != [] {
      ScheduleAnnounces(After(s, dispatches[0]), answers, backoffs, dispatches[1..]);
      AnnouncedCons(dispatches[0], Schedule(After(s, dispatches[0]), answers, backoffs, dispatches[1..]));
    }
  }

  /** Each connection attempt is either accepted or refused. */
  lemma {:induction false} ConnectAnswersSplit(answers: seq<ConnectAnswer>)
    ensures AcceptedCount(answers) + RefusedCount(answers) == |answers|
    decreases |answers|
  {
    if answers != [] {
      ConnectAnswersSplit(answers[..|answers| - 1]);
    }
  }

  /** A well-timed run never slept longer than the backoff allows: every
      sleep waited an admissible delay for the counter of its moment, below
      `MaxBackoff`. */
  lemma {:induction false} WellTimedSleepsBounded(events: seq<SinkEvent>)
    requires WellTimed(events)
    ensures forall i :: 0 <= i < |events| && events[i].Slept? ==>
      AdmissibleDelay(events[i].tries, events[i].duration) && 0 <= events[i].duration < MaxBackoff
    ensures forall i :: 0 <= i < |events| && events[i].DialFailed? ==>
      AdmissibleDelay(events[i].tries + 1, events[i].announced) && 0 <= events[i].announced < MaxBackoff
    decreases |events|
  {
    if events != [] {
      var prefix := events[..|events| - 1];
      assert Replay(prefix).Some?;
      WellTimedSleepsBounded(prefix);
      var e := events[|events| - 1];
      if e.Slept? {
        AdmissibleBelowMax(e.tries, e.duration);
      } else if e.DialFailed? {
        AdmissibleBelowMax(e.tries + 1, e.announced);
      }
      forall i | 0 <= i < |events| - 1
        ensures events[i] == prefix[i]
      {
      }
    }
  }

  /** Every admissible delay lies in [0, MaxBackoff). */
  lemma AdmissibleBelowMax(tries: nat, d: int)
    requires AdmissibleDelay(tries, d)
    ensures 0 <= d < MaxBackoff
  {
    if tries >= 1 {
      Pow2Monotone(Clamp(tries) - 1, MaxTries - 1);
    }
  }
}
