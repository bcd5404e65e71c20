/** I/O failures the dashboard can meet once the terminal is set up, and the
    `io::Result` shape that carries them. */
module Io {

  /** Which terminal operation failed. The dashboard never inspects the
      error: it only propagates it with `?`. */
  datatype IoError =
    | PollError   // polling the terminal for a pending event failed
    | ReadError   // reading the pending event failed
    | DrawError   // drawing or flushing a frame failed

  datatype Result<T> = Ok(value: T) | Err(error: IoError)
}
