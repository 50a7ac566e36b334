/** Records shared by the drain sink, the output proxy and the sink server:
    the log message carried by the transport and the envelope that wraps its
    marshalled form (the `logmessage` package of loggregatorlib). */
module Messages {

  newtype Byte = b: int | 0 <= b < 256

  type Bytes = seq<Byte>

  datatype Option<T> = None | Some(value: T)

  /** The message-type tag of a log message. The protobuf enum is an int32,
      so values other than OUT and ERR can arrive. */
  datatype MessageType = Out | Err | OtherMessageType(code: int)

  /** The source-type label; only the two values this core produces are named. */
  datatype SourceType = Loggregator | Unknown | OtherSourceType(code: int)

  /** The payload is kept as text: no component of this core looks inside it. */
  datatype LogMessage = LogMessage(
    message: string,
    appId: string,
    messageType: MessageType,
    sourceType: SourceType,
    sourceName: string,
    timestamp: int)

  /** A log message together with the bytes it was unmarshalled from. */
  datatype Envelope = Envelope(logMessage: LogMessage, rawMessage: Bytes)
  {
    function RawMessageLength(): nat { |rawMessage| }
  }
}
