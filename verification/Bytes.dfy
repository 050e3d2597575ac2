// Bytes, protocol constants and the result types shared by every layer.

module Bytes {
  // Python ints that stand for one byte of a frame.
  type byte = x: int | 0 <= x < 256

  const ESCAPE: byte := 0x10
  const STUFFED: byte := 0x2B
  const STUFFING: byte := 0x18
  const HEADER_START: byte := 0x01
  const END: byte := 0x03
  const GET: byte := 0x00
  const SET: byte := 0x80
  const START_COMMUNICATION: byte := 0x02
  const FOOTER: seq<byte> := [ESCAPE, END]
  const DATA_AVAILABLE: seq<byte> := [ESCAPE, START_COMMUNICATION]

  datatype Option<+T> = None | Some(value: T)

  datatype Result<+T, +E> = Ok(value: T) | Err(error: E)

  // The exceptions of the protocol stack. InvalidData and NotConfirmed are
  // protocol errors in the source, OutOfRange is a ValueError, and Crash stands
  // for an IndexError or a ZeroDivisionError.
  datatype Error = ProtocolError | InvalidData | NotConfirmed | OutOfRange | Crash

  function Last<T>(s: seq<T>): T
    requires s != []
  {
    s[|s| - 1]
  }

  function Front<T>(s: seq<T>): seq<T>
    requires s != []
  {
    s[..|s| - 1]
  }
}
