/** Names shared by the demultiplexer and the reactor: handlers, events and
    the interest bits of an epoll registration. */
module Events {

  /** io_handle_t: a descriptor, or -1. */
  type Fd = x: int | -1 <= x witness -1

  /** An EventHandler object: its identity and its io_handle_ field. */
  datatype Handler = Handler(id: nat, io: Fd)

  const INVALID_IO_HANDLE: Fd := -1

  /** What an event carries in its data pointer.  The reactor stores a handler,
      a null pointer, or (for a timeout) a number of milliseconds. */
  datatype Data = Null | Ptr(handler: Handler) | Msec(msec: nat)

  datatype Kind =
    | Read | Write | Error | Close
    | RegisterAll | RegisterRead | RegisterWrite | RegisterError
    | RemoveRead | RemoveWrite | RemoveError | RemoveAll
    | TimeoutAdd | TimeoutDel | Stop

  /** EVENT_USER and above: the reactor's own events, opaque to the demultiplexer. */
  predicate IsUser(k: Kind) {
    k.TimeoutAdd? || k.TimeoutDel? || k.Stop?
  }

  /** EVENT_CLOSE and below: readiness reported by the kernel. */
  predicate IsIo(k: Kind) {
    k.Read? || k.Write? || k.Error? || k.Close?
  }

  /** EventData and CtrlEventData in one record; `ret` is return_value. */
  datatype Event = Event(kind: Kind, io: Fd, data: Data, ret: bool)

  datatype Bit = In | Out | Err

  /** The three switchable bits of epoll_event.events.  EPOLLHUP and EPOLLRDHUP
      are set when an entry is created and never change. */
  datatype Mask = Mask(rd: bool, wr: bool, er: bool) {
    predicate Has(b: Bit) {
      match b
      case In => rd
      case Out => wr
      case Err => er
    }

    /** events | bit */
    function Or(b: Bit): Mask {
      match b
      case In => this.(rd := true)
      case Out => this.(wr := true)
      case Err => this.(er := true)
    }

    /** events ^ bit */
    function Xor(b: Bit): Mask {
      match b
      case In => this.(rd := !rd)
      case Out => this.(wr := !wr)
      case Err => this.(er := !er)
    }

    /** events & ~bit: what the removal functions are meant to compute. */
    function Clear(b: Bit): Mask {
      match b
      case In => this.(rd := false)
      case Out => this.(wr := false)
      case Err => this.(er := false)
    }
  }

  /** INIT_EPOLL_EVENT_VALUE */
  const INIT := Mask(false, false, false)

  /** The kernel's answers to the epoll_ctl calls one control event may make. */
  datatype Answers = Answers(rd: bool, wr: bool, er: bool)
}
