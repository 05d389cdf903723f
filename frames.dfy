/** Web socket frames as the decorator, the echo client and the tests exchange them. */
module Frames {

  type byte = x: int | 0 <= x < 256

  /** The closed set of frame variants. */
  datatype Frame =
    | Text(text: string)
    | Binary(bytes: seq<byte>)
    | Ping(bytes: seq<byte>)
    | Pong(bytes: seq<byte>)
    | Close(code: int, reason: string)

  /** The close code of an orderly shutdown (section 7.4.1 of RFC 6455). */
  const NormalClosure: int := 1000

  datatype Option<T> = None | Some(value: T)

  /** An exception, identified by its message. */
  datatype Error = Error(message: string)

  /** How an inbound frame channel ends once its frames are drained. */
  datatype StreamEnd =
    | Completed                // the channel is closed normally
    | FailedWith(error: Error) // the channel is closed with an exception
    | StaysOpen                // the channel stays open without delivering anything more

  /** An inbound frame channel: the frames it still delivers, in order, and how it ends. */
  datatype Channel = Channel(frames: seq<Frame>, end: StreamEnd)
}
