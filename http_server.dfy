/** The sink server's HTTP front: the filter that turns incoming protobuf
    frames into messages for the router, the path dispatch of websocket
    requests, the app-id gates of the tail and dump handlers, and the dump
    forwarding loop. */
module SinkServer {
  import opened Messages
  import opened Sockets

  const TailPath: string := "/tail/"
  const DumpPath: string := "/dump/"
  /** Status of a close when the request names no application. */
  const InvalidAppStatus: int := 4000
  /** Status of a close when the path is neither the tail nor the dump path. */
  const UnknownPathStatus: int := 400

  // ------------------------------------------------------------------
  // Envelope filtering

  /** The messages that `frames` unmarshal to, in frame order; frames that do
      not unmarshal are dropped. */
  function Unmarshalled(frames: seq<Bytes>, unmarshal: Bytes -> Option<Envelope>): seq<Envelope>
  {
    if frames == [] then []
    else
      Unmarshalled(frames[..|frames| - 1], unmarshal)
      + match unmarshal(frames[|frames| - 1])
        case Some(m) => [m]
        case None => []
  }

  /** Filtering distributes over concatenation: the frames after a split
      point contribute exactly their own messages, after those before it. */
  lemma {:induction false} UnmarshalledAppend(xs: seq<Bytes>, ys: seq<Bytes>, unmarshal: Bytes -> Option<Envelope>)
    ensures Unmarshalled(xs + ys, unmarshal) == Unmarshalled(xs, unmarshal) + Unmarshalled(ys, unmarshal)
    decreases |ys|
  {
    if ys == [] {
      assert xs + ys == xs;
    } else {
      var zs := xs + ys;
      assert zs[..|zs| - 1] == xs + ys[..|ys| - 1];
      UnmarshalledAppend(xs, ys[..|ys| - 1], unmarshal);
    }
  }

  /** A message is forwarded if and only if some frame unmarshals to it. */
  lemma {:induction false} UnmarshalledExactlySuccesses(frames: seq<Bytes>, unmarshal: Bytes -> Option<Envelope>, m: Envelope)
    ensures m in Unmarshalled(frames, unmarshal) <==> exists i :: 0 <= i < |frames| && unmarshal(frames[i]) == Some(m)
    decreases |frames|
  {
    if frames != [] {
      var init := frames[..|frames| - 1];
      UnmarshalledExactlySuccesses(init, unmarshal, m);
      if exists i :: 0 <= i < |init| && unmarshal(init[i]) == Some(m) {
        var i :| 0 <= i < |init| && unmarshal(init[i]) == Some(m);
        assert frames[i] == init[i];
      }
      if exists i :: 0 <= i < |frames| && unmarshal(frames[i]) == Some(m) {
        var i :| 0 <= i < |frames| && unmarshal(frames[i]) == Some(m);
        if i < |init| {
          assert init[i] == frames[i];
        }
      }
    }
  }

  /** No frame is dropped when every frame unmarshals, and then the messages
      are the frames' unmarshalled values, position by position. */
  lemma {:induction false} UnmarshalledAllSucceed(frames: seq<Bytes>, unmarshal: Bytes -> Option<Envelope>)
    requires forall i :: 0 <= i < |frames| ==> unmarshal(frames[i]).Some?
    ensures |Unmarshalled(frames, unmarshal)| == |frames|
    ensures forall i :: 0 <= i < |frames| ==> Unmarshalled(frames, unmarshal)[i] == unmarshal(frames[i]).value
    decreases |frames|
  {
    if frames != [] {
      var init := frames[..|frames| - 1];
      assert forall i :: 0 <= i < |init| ==> init[i] == frames[i];
      UnmarshalledAllSucceed(init, unmarshal);
    }
  }

  /** The filter never invents messages: there are at most as many as frames. */
  lemma {:induction false} UnmarshalledNoLonger(frames: seq<Bytes>, unmarshal: Bytes -> Option<Envelope>)
    ensures |Unmarshalled(frames, unmarshal)| <= |frames|
    decreases |frames|
  {
    if frames != [] {
      UnmarshalledNoLonger(frames[..|frames| - 1], unmarshal);
    }
  }

  // ------------------------------------------------------------------
  // Dump forwarding

  /** The frames a dump client receives for `messages`: each message's raw
      bytes, in channel order. */
  function RawFrames(messages: seq<Envelope>): (events: seq<SocketEvent>)
    ensures |events| == |messages|
    ensures forall i :: 0 <= i < |messages| ==> events[i] == Sent(messages[i].rawMessage)
  {
    if messages == [] then [] else RawFrames(messages[..|messages| - 1]) + [Sent(messages[|messages| - 1].rawMessage)]
  }

  /** `dumpMessagesFromChannelToWebsocket`: sends the raw bytes of every
      message of the (closed, finite) dump channel, in order, and goes on after
      a failed send. */
  method DumpMessagesFromChannelToWebsocket(dumpChan: seq<Envelope>, ws: Conn)
    modifies ws`events
    ensures ws.events == old(ws.events) + RawFrames(dumpChan)
  {
    for k := 0 to |dumpChan|
      invariant ws.events == old(ws.events) + RawFrames(dumpChan[..k])
    {
      assert dumpChan[..k + 1][..k] == dumpChan[..k];
      var failed := ws.Send(dumpChan[k].rawMessage);
      // a failed send is only logged
    }
    assert dumpChan[..|dumpChan|] == dumpChan;
  }

  // ------------------------------------------------------------------
  // Membership

  /** `contains`: a linear search for `valueToFind` in `values`. */
  method Contains(valueToFind: string, values: seq<string>) returns (found: bool)
    ensures found <==> exists i :: 0 <= i < |values| && values[i] == valueToFind
  {
    found := false;
    var k := 0;
    while k < |values| && !found
      invariant k <= |values|
      invariant found ==> exists i :: 0 <= i < k && values[i] == valueToFind
      invariant !found ==> forall i :: 0 <= i < k ==> values[i] != valueToFind
    {
      if values[k] == valueToFind {
        found := true;
      }
      k := k + 1;
    }
  }

  // ------------------------------------------------------------------
  // The router's channels and the server

  /** The inputs of the message router that the server feeds: parsed
      messages, app ids of opened websocket sinks, and app ids of registered
      dumps, each in the order they were handed over. */
  class MessageRouter {
    var parsedMessageChan: seq<Envelope>
    var sinkOpenChan: seq<string>
    var dumpRegistrations: seq<string>

    constructor ()
      ensures parsedMessageChan == [] && sinkOpenChan == [] && dumpRegistrations == []
    {
      parsedMessageChan, sinkOpenChan, dumpRegistrations := [], [], [];
    }
  }

  class HttpServer {
    const messageRouter: MessageRouter
    /** The protobuf unmarshaller; `None` is an unmarshalling error. */
    const protoBufferUnmarshaller: Bytes -> Option<Envelope>

    constructor (messageRouter: MessageRouter, protoBufferUnmarshaller: Bytes -> Option<Envelope>)
      ensures this.messageRouter == messageRouter && this.protoBufferUnmarshaller == protoBufferUnmarshaller
    {
      this.messageRouter := messageRouter;
      this.protoBufferUnmarshaller := protoBufferUnmarshaller;
    }

    /** `ParseEnvelopes` over the frames `incoming` read from the channel so
        far (the loop itself never ends): each frame that unmarshals is handed
        to the router, in order; the others are dropped and reading goes on. */
    method ParseEnvelopes(incoming: seq<Bytes>)
      modifies messageRouter`parsedMessageChan
      ensures messageRouter.parsedMessageChan
              == old(messageRouter.parsedMessageChan) + Unmarshalled(incoming, protoBufferUnmarshaller)
    {
      for k := 0 to |incoming|
        invariant messageRouter.parsedMessageChan
                  == old(messageRouter.parsedMessageChan) + Unmarshalled(incoming[..k], protoBufferUnmarshaller)
      {
        assert incoming[..k + 1][..k] == incoming[..k];
        var message := protoBufferUnmarshaller(incoming[k]);
        if message.Some? {
          messageRouter.parsedMessageChan := messageRouter.parsedMessageChan + [message.value];
        }
      }
      assert incoming[..|incoming|] == incoming;
    }

    /** `websocketSinkHandler`: an empty app id closes the socket with 4000;
        otherwise a sink for the app is handed to the router. */
    method WebsocketSinkHandler(ws: Conn)
      modifies ws`events, messageRouter`sinkOpenChan
      ensures ws.appId == "" ==>
        ws.events == old(ws.events) + [Closed(Some(InvalidAppStatus))]
        && messageRouter.sinkOpenChan == old(messageRouter.sinkOpenChan)
      ensures ws.appId != "" ==>
        ws.events == old(ws.events) && messageRouter.sinkOpenChan == old(messageRouter.sinkOpenChan) + [ws.appId]
    {
      if ws.appId == "" {
        ws.CloseWithStatus(InvalidAppStatus);
      } else {
        messageRouter.sinkOpenChan := messageRouter.sinkOpenChan + [ws.appId];
      }
    }

    /** `dumpSinkHandler`: an empty app id closes the socket with 4000;
        otherwise a dump of the app is registered, its messages `dump` are
        forwarded, and the socket is closed after the last one. */
    method DumpSinkHandler(ws: Conn, dump: seq<Envelope>)
      modifies ws`events, messageRouter`dumpRegistrations
      ensures ws.appId == "" ==>
        ws.events == old(ws.events) + [Closed(Some(InvalidAppStatus))]
        && messageRouter.dumpRegistrations == old(messageRouter.dumpRegistrations)
      ensures ws.appId != "" ==>
        ws.events == old(ws.events) + RawFrames(dump) + [Closed(None)]
        && messageRouter.dumpRegistrations == old(messageRouter.dumpRegistrations) + [ws.appId]
    {
      if ws.appId == "" {
        ws.CloseWithStatus(InvalidAppStatus);
      } else {
        messageRouter.dumpRegistrations := messageRouter.dumpRegistrations + [ws.appId];
        DumpMessagesFromChannelToWebsocket(dump, ws);
        ws.Close();
      }
    }

    /** `websocketRouter`: the tail path goes to the sink handler, the dump
        path to the dump handler, and any other path is closed with 400. */
    method WebsocketRouter(ws: Conn, dump: seq<Envelope>)
      modifies ws`events, messageRouter`sinkOpenChan, messageRouter`dumpRegistrations
      ensures ws.path != TailPath ==> messageRouter.sinkOpenChan == old(messageRouter.sinkOpenChan)
      ensures ws.path != DumpPath ==> messageRouter.dumpRegistrations == old(messageRouter.dumpRegistrations)
      ensures ws.path == TailPath ==>
        if ws.appId == "" then
          ws.events == old(ws.events) + [Closed(Some(InvalidAppStatus))]
          && messageRouter.sinkOpenChan == old(messageRouter.sinkOpenChan)
        else
          ws.events == old(ws.events) && messageRouter.sinkOpenChan == old(messageRouter.sinkOpenChan) + [ws.appId]
      ensures ws.path == DumpPath ==>
        if ws.appId == "" then
          ws.events == old(ws.events) + [Closed(Some(InvalidAppStatus))]
          && messageRouter.dumpRegistrations == old(messageRouter.dumpRegistrations)
        else
          ws.events == old(ws.events) + RawFrames(dump) + [Closed(None)]
          && messageRouter.dumpRegistrations == old(messageRouter.dumpRegistrations) + [ws.appId]
      ensures ws.path != TailPath && ws.path != DumpPath ==>
        ws.events == old(ws.events) + [Closed(Some(UnknownPathStatus))]
    {
      if ws.path == TailPath {
        WebsocketSinkHandler(ws);
      } else if ws.path == DumpPath {
        DumpSinkHandler(ws, dump);
      } else {
        ws.CloseWithStatus(UnknownPathStatus);
      }
    }
  }
}
