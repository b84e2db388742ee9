/** Types shared by every part of the model. */
module Basics {

  datatype Option<+T> = None | Some(value: T)

  type byte = x: int | 0 <= x < 256

  type Word = n: int | 0 <= n < 0x10000

  /** The six bytes of a hardware address. */
  type Address = s: seq<byte> | |s| == 6 witness [0, 0, 0, 0, 0, 0]

  /** The four bytes of an IP address. */
  type Ip = s: seq<byte> | |s| == 4 witness [0, 0, 0, 0]

  /** The four bytes of a time of day. */
  type Stamp = s: seq<byte> | |s| == 4 witness [0, 0, 0, 0]
}
