/** A websocket connection as the handlers see it: the request it was opened
    with, and the ordered record of what the handlers did to it. */
module Sockets {
  import opened Messages

  datatype SocketEvent =
    | Sent(data: Bytes)
      /** `Close()` has no status; `CloseWithStatus(code)` has one. */
    | Closed(status: Option<int>)

  class Conn {
    /** URL path of the upgrade request. */
    const path: string
    /** Path and query of the request, as `URL.RequestURI()` gives it. */
    const requestUri: string
    /** The application id the handler derives from the request: the proxy
        reads the `app` form value, the sink server calls `appid.FromUrl`
        on the request URL. */
    const appId: string
    /** The `Authorization` header of the request. */
    const authorization: string
    /** Everything sent on, and every close of, this connection, in order. */
    var events: seq<SocketEvent>

    constructor (path: string, requestUri: string, appId: string, authorization: string)
      ensures this.path == path && this.requestUri == requestUri
      ensures this.appId == appId && this.authorization == authorization
      ensures events == []
    {
      this.path := path;
      this.requestUri := requestUri;
      this.appId := appId;
      this.authorization := authorization;
      events := [];
    }

    /** `websocket.Message.Send`: the frame is handed to the socket; whether the
        peer got it is the returned error, which the model leaves open. */
    method Send(data: Bytes) returns (failed: bool)
      modifies this`events
      ensures events == old(events) + [Sent(data)]
    {
      events := events + [Sent(data)];
      failed := *;
    }

    method Close()
      modifies this`events
      ensures events == old(events) + [Closed(None)]
    {
      events := events + [Closed(None)];
    }

    method CloseWithStatus(code: int)
      modifies this`events
      ensures events == old(events) + [Closed(Some(code))]
    {
      events := events + [Closed(Some(code))];
    }
  }
}
