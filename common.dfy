/** Types shared by the modules of the bulk loader model. */
module Common {

  /** One octet of input or payload. */
  type byte = x: int | 0 <= x < 256

  /** The byte `'\n'` that `scan` writes after every input line. */
  const Newline: byte := 10

  datatype Option<T> = None | Some(value: T)

  /** The bytes of a sequence of buffers, one after the other. */
  function Flatten(bs: seq<seq<byte>>): seq<byte>
    decreases |bs|
  {
    if bs == [] then [] else Flatten(bs[..|bs| - 1]) + bs[|bs| - 1]
  }
}
