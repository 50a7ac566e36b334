/** The traffic controller's output proxy: the authorization gate of a viewer
    session, the dial of one backend per hasher, and the relay that waits for
    every backend task to finish. */
module TrafficController {
  import opened Messages
  import opened Sockets

  // ------------------------------------------------------------------
  // The authorization gate (isAuthorized)

  const InvalidTarget: string := "Error: Invalid target"
  const AuthorizationNotProvided: string := "Error: Authorization not provided"
  const InvalidAuthorization: string := "Error: Invalid authorization"
  /** Source name stamped on the proxy's rejection records. */
  const ProxySource: string := "LGR"

  /** The record a rejection sends: an ERR message of source type UNKNOWN
      about the requested app, stamped with the clock reading `now`. */
  function RejectionRecord(appId: string, text: string, now: int): (lm: LogMessage)
    ensures lm.message == text && lm.appId == appId && lm.timestamp == now
    ensures lm.messageType == Err && lm.sourceType == Unknown && lm.sourceName == ProxySource
  {
    LogMessage(text, appId, Err, Unknown, ProxySource, now)
  }

  /** The guard chain: an empty app id, then an empty token, then the
      authorizer's verdict on (token, app id). `authorize` is the
      LogAccessAuthorizer; `now` is the clock reading for the record. */
  function IsAuthorized(appId: string, authToken: string, authorize: (string, string) -> bool, now: int)
    : (r: (bool, Option<LogMessage>))
    ensures r.0 <==> appId != "" && authToken != "" && authorize(authToken, appId)
    ensures r.0 <==> r.1 == None
    ensures r.1.Some? ==>
      && r.1.value.messageType == Err && r.1.value.sourceType == Unknown
      && r.1.value.sourceName == ProxySource && r.1.value.appId == appId && r.1.value.timestamp == now
    ensures appId == "" ==> r.1 == Some(RejectionRecord(appId, InvalidTarget, now))
    ensures appId != "" && authToken == "" ==> r.1 == Some(RejectionRecord(appId, AuthorizationNotProvided, now))
    ensures appId != "" && authToken != "" && !authorize(authToken, appId) ==>
      r.1 == Some(RejectionRecord(appId, InvalidAuthorization, now))
  {
    if appId == "" then (false, Some(RejectionRecord(appId, InvalidTarget, now)))
    else if authToken == "" then (false, Some(RejectionRecord(appId, AuthorizationNotProvided, now)))
    else if !authorize(authToken, appId) then (false, Some(RejectionRecord(appId, InvalidAuthorization, now)))
    else (true, None)
  }

  /** The authorizer is consulted only when both the app id and the token are
      given: otherwise any two authorizers lead to the same verdict and record. */
  lemma AuthorizerConsultedOnlyWithBoth(appId: string, authToken: string,
                                        authorize: (string, string) -> bool, other: (string, string) -> bool, now: int)
    requires appId == "" || authToken == ""
    ensures IsAuthorized(appId, authToken, authorize, now) == IsAuthorized(appId, authToken, other, now)
  {
  }

  // ------------------------------------------------------------------
  // Backends and the relay

  /** A group of loggregator servers; which one serves an app is decided by
      the hash ring, whose code is not part of this model. */
  datatype Hasher = Hasher(servers: seq<string>)

  /** An established connection to a loggregator server. */
  datatype BackendConn = BackendConn(address: string)

  /** The events the client sees when the frames `frames` are forwarded to it. */
  function SentAll(frames: seq<Bytes>): (events: seq<SocketEvent>)
    ensures |events| == |frames|
    ensures forall i :: 0 <= i < |frames| ==> events[i] == Sent(frames[i])
  {
    if frames == [] then [] else SentAll(frames[..|frames| - 1]) + [Sent(frames[|frames| - 1])]
  }

  /** What the backends in `slots` relay to the client, one backend after the
      other; `inbound(address)` is what the server at `address` sends before
      its connection fails. Empty slots relay nothing. */
  function Relayed(slots: seq<Option<BackendConn>>, inbound: string -> seq<Bytes>): seq<SocketEvent>
  {
    if slots == [] then []
    else
      Relayed(slots[..|slots| - 1], inbound)
      + match slots[|slots| - 1]
        case Some(b) => SentAll(inbound(b.address))
        case None => []
  }

  /** Addresses of the established backends in `slots`, in slot order. */
  function Established(slots: seq<Option<BackendConn>>): seq<string>
  {
    if slots == [] then []
    else
      Established(slots[..|slots| - 1])
      + match slots[|slots| - 1]
        case Some(b) => [b.address]
        case None => []
  }

  /** One fan-in task of an established backend: forwards every frame the
      backend sends, then, on the receive error, signals completion once and
      closes the backend. The returned `closed` lists the backend it closed. */
  method BackendTask(server: BackendConn, client: Conn, inbound: string -> seq<Bytes>)
    returns (done: nat, closed: seq<string>)
    modifies client`events
    ensures done == 1
    ensures client.events == old(client.events) + SentAll(inbound(server.address))
    ensures closed == [server.address]
  {
    var frames := inbound(server.address);
    var k := 0;
    while k < |frames|
      invariant k <= |frames|
      invariant client.events == old(client.events) + SentAll(frames[..k])
    {
      assert frames[..k + 1][..k] == frames[..k];
      var _ := client.Send(frames[k]);
      k := k + 1;
    }
    assert frames[..k] == frames;
    done, closed := 1, [server.address];
  }

  /** `forwardIO`: runs the fan-in task of every established backend, then
      receives one completion signal per task started. `signals` counts the
      signals received; `pending` is what is left on the channel. */
  method ForwardIO(servers: array<Option<BackendConn>>, client: Conn, inbound: string -> seq<Bytes>)
    returns (signals: nat, pending: nat, closed: seq<string>)
    modifies client`events
    ensures signals == |Established(servers[..])| && pending == 0
    ensures client.events == old(client.events) + Relayed(servers[..], inbound)
    ensures closed == Established(servers[..])
  {
    ghost var slots := servers[..];
    pending, closed := 0, [];
    var started := 0;
    for i := 0 to servers.Length
      invariant pending == started == |closed|
      invariant client.events == old(client.events) + Relayed(slots[..i], inbound)
      invariant closed == Established(slots[..i])
    {
      assert slots[..i + 1] == slots[..i] + [servers[i]];
      RelayedAppend(slots[..i], servers[i], inbound);
      match servers[i] {
        case Some(b) =>
          var done, backendClosed := BackendTask(b, client, inbound);
          pending, started := pending + done, started + 1;
          closed := closed + backendClosed;
        case None =>
      }
    }
    assert slots[..servers.Length] == slots;
    signals := 0;
    while signals < started
      invariant signals <= started
      invariant pending == started - signals
    {
      pending := pending - 1;
      signals := signals + 1;
    }
  }

  /** The fan-in task as the relay starts it, for every slot: an empty slot
      has no connection, and the relay's first step, reading the backend's
      address for its log line, fails on it (`panicked`) before any signal. */
  method BackendTaskAsWritten(server: Option<BackendConn>, client: Conn, inbound: string -> seq<Bytes>)
    returns (done: nat, panicked: bool)
    modifies client`events
    ensures panicked <==> server.None?
    ensures done == if panicked then 0 else 1
    ensures client.events == old(client.events) + if panicked then [] else SentAll(inbound(server.value.address))
  {
    match server {
      case None =>
        done, panicked := 0, true;
      case Some(b) =>
        var closed;
        done, closed := BackendTask(b, client, inbound);
        panicked := false;
    }
  }

  /** The tasks `forwardIO` as written starts, one per slot: `signalsSent`
      counts the signals the relays send, and `panicked` reports an empty
      slot, whose task panics without recovery and so ends the whole proxy
      process; the model records that in `panicked` and lets the tasks of the
      established slots relay what they would have relayed. */
  method StartTasksAsWritten(servers: array<Option<BackendConn>>, client: Conn, inbound: string -> seq<Bytes>)
    returns (signalsSent: nat, panicked: bool)
    modifies client`events
    ensures signalsSent == |Established(servers[..])|
    ensures client.events == old(client.events) + Relayed(servers[..], inbound)
    ensures panicked <==> None in servers[..]
  {
    ghost var slots := servers[..];
    signalsSent, panicked := 0, false;
    for i := 0 to servers.Length
      invariant signalsSent == |Established(slots[..i])|
      invariant client.events == old(client.events) + Relayed(slots[..i], inbound)
      invariant panicked <==> None in slots[..i]
    {
      var slot := servers[i];
      assert slots[..i + 1] == slots[..i] + [slot];
      RelayedAppend(slots[..i], slot, inbound);
      var done, taskPanicked := BackendTaskAsWritten(slot, client, inbound);
      signalsSent := signalsSent + done;
      panicked := panicked || taskPanicked;
    }
    assert slots[..servers.Length] == slots;
  }

  /** `forwardIO` as written: one task per slot, then a wait for as many
      signals as there are slots; the wait completes (`waitFinishes`) only
      when every slot holds a connection. */
  method ForwardIOAsWritten(servers: array<Option<BackendConn>>, client: Conn, inbound: string -> seq<Bytes>)
    returns (signalsSent: nat, panicked: bool, waitFinishes: bool)
    modifies client`events
    ensures signalsSent == |Established(servers[..])|
    ensures client.events == old(client.events) + Relayed(servers[..], inbound)
    ensures panicked <==> None in servers[..]
    ensures waitFinishes <==> !panicked
  {
    signalsSent, panicked := StartTasksAsWritten(servers, client, inbound);
    EstablishedCount(servers[..]);
    // the wait: one receive per slot, blocking once no signal is left
    var received := 0;
    while received < servers.Length && received < signalsSent
      invariant received <= servers.Length && received <= signalsSent
    {
      received := received + 1;
    }
    waitFinishes := received == servers.Length;
  }

  /** At most one established backend per slot, and as many as slots exactly
      when no slot is empty: the wait for one signal per slot can complete
      only when every dial succeeded. */
  lemma {:induction false} EstablishedCount(slots: seq<Option<BackendConn>>)
    ensures |Established(slots)| <= |slots|
    ensures |Established(slots)| == |slots| <==> forall i :: 0 <= i < |slots| ==> slots[i].Some?
    decreases |slots|
  {
    if slots != [] {
      var prefix := slots[..|slots| - 1];
      EstablishedCount(prefix);
      if forall i :: 0 <= i < |slots| ==> slots[i].Some? {
        assert forall i :: 0 <= i < |prefix| ==> prefix[i].Some? by {
          forall i | 0 <= i < |prefix| ensures prefix[i].Some? {
            assert prefix[i] == slots[i];
          }
        }
      }
    }
  }

  lemma RelayedAppend(slots: seq<Option<BackendConn>>, slot: Option<BackendConn>, inbound: string -> seq<Bytes>)
    ensures Relayed(slots + [slot], inbound)
            == Relayed(slots, inbound) + if slot.Some? then SentAll(inbound(slot.value.address)) else []
    ensures Established(slots + [slot]) == Established(slots) + if slot.Some? then [slot.value.address] else []
  {
    assert (slots + [slot])[..|slots|] == slots;
  }

  /** Frames relayed to the client are all data frames: the relay never closes
      the client, and it relays exactly what the established backends sent. */
  lemma {:induction false} RelayedOnlyForwards(slots: seq<Option<BackendConn>>, inbound: string -> seq<Bytes>)
    ensures forall e :: e in Relayed(slots, inbound) ==> e.Sent?
    ensures Established(slots) == [] ==> Relayed(slots, inbound) == []
    decreases |slots|
  {
    if slots != [] {
      RelayedOnlyForwards(slots[..|slots| - 1], inbound);
    }
  }

  // ------------------------------------------------------------------
  // The proxy

  class Proxy {
    const hashers: seq<Hasher>
    /** The LogAccessAuthorizer: may `token` read the logs of `appId`? */
    const authorize: (string, string) -> bool
    /** `GetLoggregatorServerForAppId` of a hasher. */
    const serverFor: (Hasher, string) -> string

    constructor (hashers: seq<Hasher>, authorize: (string, string) -> bool, serverFor: (Hasher, string) -> string)
      ensures this.hashers == hashers && this.authorize == authorize && this.serverFor == serverFor
    {
      this.hashers := hashers;
      this.authorize := authorize;
      this.serverFor := serverFor;
    }

    /** The websocket address dialled for hasher `h`: the chosen server,
        followed by the client's request URI. */
    function BackendAddress(h: Hasher, appId: string, requestUri: string): string
    {
      "ws://" + serverFor(h, appId) + requestUri
    }

    /** The data sent on a rejection: the marshalled record, or no bytes when
        marshalling fails (the error is only logged). */
    static function RejectionData(marshal: LogMessage -> Option<Bytes>, record: LogMessage): Bytes
    {
      match marshal(record)
      case Some(data) => data
      case None => []
    }

    /** One viewer session. `marshal` is the protobuf marshaller, `dial(address)`
        whether the backend at `address` accepts the websocket, `inbound` what
        each backend sends, `now` the clock reading. `dialled` lists the
        addresses dialled, in hasher order; `slots` is `serverWSs`. */
    method HandleWebSocket(clientWS: Conn, marshal: LogMessage -> Option<Bytes>, dial: string -> bool,
                           inbound: string -> seq<Bytes>, now: int)
      returns (dialled: seq<string>, slots: seq<Option<BackendConn>>)
      modifies clientWS`events
      ensures var (authorized, record) := IsAuthorized(clientWS.appId, clientWS.authorization, authorize, now);
        && (!authorized ==>
              && dialled == [] && slots == []
              && clientWS.events == old(clientWS.events) + [Sent(RejectionData(marshal, record.value)), Closed(None)])
        && (authorized ==>
              && |dialled| == |slots| == |hashers|
              && (forall i :: 0 <= i < |hashers| ==>
                    && dialled[i] == BackendAddress(hashers[i], clientWS.appId, clientWS.requestUri)
                    && slots[i] == if dial(dialled[i]) then Some(BackendConn(dialled[i])) else None)
              && clientWS.events == old(clientWS.events) + Relayed(slots, inbound) + [Closed(None)])
    {
      var appId := clientWS.appId;
      var authToken := clientWS.authorization;
      var (authorized, errorMessage) := IsAuthorized(appId, authToken, authorize, now);
      if !authorized {
        var data := RejectionData(marshal, errorMessage.value);
        var _ := clientWS.Send(data);
        clientWS.Close();
        dialled, slots := [], [];
        return;
      }
      var serverWSs := new Option<BackendConn>[|hashers|](_ => None);
      dialled := [];
      for index := 0 to |hashers|
        invariant |dialled| == index
        invariant clientWS.events == old(clientWS.events)
        invariant forall i :: index <= i < serverWSs.Length ==> serverWSs[i] == None
        invariant forall i :: 0 <= i < index ==>
          && dialled[i] == BackendAddress(hashers[i], appId, clientWS.requestUri)
          && serverWSs[i] == if dial(dialled[i]) then Some(BackendConn(dialled[i])) else None
      {
        var address := BackendAddress(hashers[index], appId, clientWS.requestUri);
        dialled := dialled + [address];
        if dial(address) {
          serverWSs[index] := Some(BackendConn(address));
        }
      }
      slots := serverWSs[..];
      assert clientWS.events == old(clientWS.events);
      var _, _, _ := ForwardIO(serverWSs, clientWS, inbound);
      assert slots == serverWSs[..];
      // the deferred close of the client
      clientWS.Close();
    }
  }
}
