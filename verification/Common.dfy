/** Types shared by the models of the server's parts. */
module Common {
  datatype Option<+T> = None | Some(value: T)

  datatype Result<+T, +E> = Ok(value: T) | Err(error: E)

  /** One byte of a file or of a websocket frame. */
  newtype byte = x: int | 0 <= x < 256

  type Bytes = seq<byte>

  /** The length of the concatenation of some byte strings. */
  function TotalLength(parts: seq<Bytes>): (n: nat)
  {
    if parts == [] then 0 else |parts[0]| + TotalLength(parts[1..])
  }

  /** The zmq channels of a kernel. */
  datatype Channel = Iopub | Shell | Control | Stdin

  /** The `msg_type` of a header, as "status" or "stream". */
  type MsgType = string

  /** A kernel's `execution_state`, as "starting", "idle", "busy" or "dead". */
  type ExecutionState = string

  type KernelId = string
}
