/** reactor/IoHandleDemuxer.h: the table of interest masks, the kernel's copy
    of it, and the two queues of control events. */
module Demuxer {
  import opened Events

  /** epoll_events_by_io_handle_ and the interest set inside the kernel. */
  datatype Tables = Tables(user: map<Fd, Mask>, kernel: map<Fd, Mask>)

  ghost predicate Agree(t: Tables) {
    t.user == t.kernel
  }

  // ---------------------------------------------------------------- the kernel

  /** EPOLL_CTL_ADD: refused for a handle already present, or for any reason. */
  predicate CtlAdd(kernel: map<Fd, Mask>, io: Fd, answer: bool) {
    answer && io !in kernel
  }

  /** EPOLL_CTL_MOD: refused for an absent handle, or for any reason. */
  predicate CtlMod(kernel: map<Fd, Mask>, io: Fd, answer: bool) {
    answer && io in kernel
  }

  /** A MOD whose result nobody looks at, assumed to succeed on a present handle. */
  function CtlModUnchecked(kernel: map<Fd, Mask>, io: Fd, m: Mask): map<Fd, Mask> {
    if io in kernel then kernel[io := m] else kernel
  }

  // ------------------------------------------------------------- specification

  /** Asking for one bit: the bit is set in both tables, or nothing changes. */
  function Grant(t: Tables, b: Bit, io: Fd, answer: bool): Tables {
    if io in t.user then
      var m := t.user[io].Or(b);
      if !t.user[io].Has(b) && CtlMod(t.kernel, io, answer) then Tables(t.user[io := m], t.kernel[io := m]) else t
    else if CtlAdd(t.kernel, io, answer) then
      Tables(t.user[io := INIT.Or(b)], t.kernel[io := INIT.Or(b)])
    else t
  }

  /** Whether asking for that bit runs into a refusal. */
  predicate Refused(t: Tables, b: Bit, io: Fd, answer: bool) {
    if io in t.user then !t.user[io].Has(b) && !CtlMod(t.kernel, io, answer) else !CtlAdd(t.kernel, io, answer)
  }

  /** Toggling one bit; an entry left without bits disappears. */
  function Toggle(t: Tables, b: Bit, io: Fd): Tables {
    if io !in t.user then t
    else
      var m := t.user[io].Xor(b);
      if m == INIT then Forget(t, io) else Tables(t.user[io := m], CtlModUnchecked(t.kernel, io, m))
  }

  function Forget(t: Tables, io: Fd): Tables {
    if io !in t.user then t else Tables(t.user - {io}, t.kernel - {io})
  }

  /** The effect of one control event on the tables. */
  function Process(t: Tables, e: Event, k: Answers): Tables {
    match e.kind
    case RegisterAll => Grant(Grant(Grant(t, In, e.io, k.rd), Out, e.io, k.wr), Err, e.io, k.er)
    case RegisterRead => Grant(t, In, e.io, k.rd)
    case RegisterWrite => Grant(t, Out, e.io, k.wr)
    case RegisterError => Grant(t, Err, e.io, k.er)
    case RemoveRead => Toggle(t, In, e.io)
    case RemoveWrite => Toggle(t, Out, e.io)
    case RemoveError => Toggle(t, Err, e.io)
    case RemoveAll => Forget(t, e.io)
    case _ => t
  }

  /** Whether processing that event has an epoll_ctl call refused. */
  predicate ProcessRefused(t: Tables, e: Event, k: Answers) {
    match e.kind
    case RegisterAll =>
      var t1 := Grant(t, In, e.io, k.rd);
      Refused(t, In, e.io, k.rd) || Refused(t1, Out, e.io, k.wr) || Refused(Grant(t1, Out, e.io, k.wr), Err, e.io, k.er)
    case RegisterRead => Refused(t, In, e.io, k.rd)
    case RegisterWrite => Refused(t, Out, e.io, k.wr)
    case RegisterError => Refused(t, Err, e.io, k.er)
    case _ => false
  }

  /** Readiness of one descriptor as epoll_wait reports it.  `rd` stands for
      EPOLLIN together with a successful one-byte peek, `hup` for either hang-up. */
  datatype Ready = PipeReady | Io(io: Fd, rd: bool, wr: bool, er: bool, hup: bool)

  /** The events `wait` returns for one ready descriptor. */
  function Emit(r: Ready): seq<Event> {
    match r
    case PipeReady => []
    case Io(io, rd, wr, er, hup) =>
      (if rd then [Event(Read, io, Null, true)] else [])
      + (if wr && !er then [Event(Write, io, Null, true)] else [])
      + (if er then [Event(Error, io, Null, true)] else [])
      + (if hup then [Event(Close, io, Null, true)] else [])
  }

  /** What the kernel may report: only descriptors it watches, each once, and
      input or output readiness only where it was asked for. */
  predicate Reportable(kernel: map<Fd, Mask>, ready: seq<Ready>) {
    && (forall i :: 0 <= i < |ready| ==> ready[i].Io? ==>
         && ready[i].io in kernel
         && (ready[i].rd ==> kernel[ready[i].io].rd)
         && (ready[i].wr ==> kernel[ready[i].io].wr))
    && (forall i, j :: 0 <= i < j < |ready| ==> ready[i].Io? && ready[j].Io? ==> ready[i].io != ready[j].io)
  }

  // ------------------------------------------------------------ what they keep

  /** Whatever the kernel answers, the user table stays equal to the kernel's. */
  lemma ProcessKeepsAgreement(t: Tables, e: Event, k: Answers)
    requires Agree(t)
    ensures Agree(Process(t, e, k))
  {
  }

  /** A control event touches the entry of its own handle only. */
  lemma ProcessIsLocal(t: Tables, e: Event, k: Answers, io: Fd)
    requires io != e.io
    ensures var t' := Process(t, e, k);
            && (io in t'.user <==> io in t.user)
            && (io in t.user ==> t'.user[io] == t.user[io])
  {
    if e.kind.RegisterAll? {
      var t1 := Grant(t, In, e.io, k.rd);
      GrantIsLocal(t, In, e.io, k.rd, io);
      GrantIsLocal(t1, Out, e.io, k.wr, io);
      GrantIsLocal(Grant(t1, Out, e.io, k.wr), Err, e.io, k.er, io);
    }
  }

  lemma GrantIsLocal(t: Tables, b: Bit, at: Fd, answer: bool, io: Fd)
    requires io != at
    ensures var t' := Grant(t, b, at, answer);
            && (io in t'.user <==> io in t.user)
            && (io in t.user ==> t'.user[io] == t.user[io])
  {
  }

  /** The exclusive-or in a removal clears the bit exactly when there is no
      entry or the bit was set; otherwise it sets the bit. */
  lemma ToggleClearsIff(t: Tables, b: Bit, io: Fd)
    ensures (io in t.user ==> t.user[io].Has(b)) <==>
            (var t' := Toggle(t, b, io); io in t'.user ==> t'.user[io] == t.user[io].Clear(b))
  {
  }

  /** The entry of the event's own handle afterwards, bit by bit: what is asked for
      is granted unless the kernel refuses, which changes nothing; a removal of all
      leaves no entry; and other events are none of the demultiplexer's business. */
  lemma ProcessIs(t: Tables, e: Event, k: Answers)
    requires Agree(t)
    ensures var t', io := Process(t, e, k), e.io;
            var m := if io in t.user then t.user[io] else Mask(false, false, false);
            && (e.kind.RegisterRead? && !ProcessRefused(t, e, k) ==> io in t'.kernel && t'.kernel[io] == m.(rd := true))
            && (e.kind.RegisterWrite? && !ProcessRefused(t, e, k) ==> io in t'.kernel && t'.kernel[io] == m.(wr := true))
            && (e.kind.RegisterError? && !ProcessRefused(t, e, k) ==> io in t'.kernel && t'.kernel[io] == m.(er := true))
            && (e.kind.RegisterAll? && !ProcessRefused(t, e, k) ==> io in t'.kernel && t'.kernel[io] == Mask(true, true, true))
            && ((e.kind.RegisterRead? || e.kind.RegisterWrite? || e.kind.RegisterError?) && ProcessRefused(t, e, k) ==> t' == t)
            && (e.kind.RemoveAll? ==> io !in t'.user && io !in t'.kernel)
            && (e.kind.RemoveWrite? && io in t.user && m.wr ==> (if m.rd || m.er then io in t'.kernel && t'.kernel[io] == m.(wr := false) else io !in t'.kernel))
            && (IsIo(e.kind) || IsUser(e.kind) ==> t' == t)
  {
    if e.kind.RegisterAll? && !ProcessRefused(t, e, k) {
      var t1 := Grant(t, In, e.io, k.rd);
      Granted(t, In, e.io, k.rd);
      Granted(t1, Out, e.io, k.wr);
      Granted(Grant(t1, Out, e.io, k.wr), Err, e.io, k.er);
    }
  }

  lemma Granted(t: Tables, b: Bit, io: Fd, answer: bool)
    requires Agree(t) && !Refused(t, b, io, answer)
    ensures var t' := Grant(t, b, io, answer);
            Agree(t') && io in t'.kernel && t'.kernel[io] == (if io in t.user then t.user[io] else INIT).Or(b)
  {
  }

  // ------------------------------------------------------------------ the class

  /** The demultiplexer object.  `kernel` is the environment's half of it. */
  class IoHandleDemuxer {
    var epollEvents: map<Fd, Mask>
    var kernel: map<Fd, Mask>
    var waitEvents: seq<Event>
    var pipe: seq<Event>

    ghost function Interest(): Tables
      reads this
    {
      Tables(epollEvents, kernel)
    }

    constructor ()
      ensures Interest() == Tables(map[], map[])
      ensures waitEvents == [] && pipe == []
    {
      epollEvents, kernel := map[], map[];
      waitEvents, pipe := [], [];
    }

    /** raise_event: the pipe for other threads, wait_events_ for the waiting one. */
    method RaiseEvent(e: Event, onWaitThread: bool) returns (ok: bool)
      modifies this`waitEvents, this`pipe
      ensures ok <==> IsUser(e.kind) || e.io != INVALID_IO_HANDLE
      ensures waitEvents == old(waitEvents) + (if ok && onWaitThread then [e] else [])
      ensures pipe == old(pipe) + (if ok && !onWaitThread then [e] else [])
    {
      if !IsUser(e.kind) && e.io == INVALID_IO_HANDLE {
        return false;
      }
      if !onWaitThread {
        pipe := pipe + [e];
        return true;
      }
      waitEvents := waitEvents + [e];
      return true;
    }

    /** add_epoll_event: an existing entry is changed first and changed back when
        the kernel refuses; a new entry is erased again when the kernel refuses. */
    method AddEpollEvent(b: Bit, io: Fd, answer: bool)
      modifies this`epollEvents, this`kernel
      ensures Interest() == Grant(old(Interest()), b, io, answer)
    {
      if io in epollEvents {
        if epollEvents[io].Has(b) {
          return;
        }
        epollEvents := epollEvents[io := epollEvents[io].Or(b)];
        if CtlMod(kernel, io, answer) {
          kernel := kernel[io := epollEvents[io]];
        } else {
          epollEvents := epollEvents[io := epollEvents[io].Xor(b)];
          assert epollEvents == old(epollEvents);
        }
        return;
      }
      epollEvents := epollEvents[io := INIT.Or(b)];
      if CtlAdd(kernel, io, answer) {
        kernel := kernel[io := epollEvents[io]];
      } else {
        epollEvents := epollEvents - {io};
        assert epollEvents == old(epollEvents);
      }
    }

    method DelEpollEvent(b: Bit, io: Fd)
      modifies this`epollEvents, this`kernel
      ensures Interest() == Toggle(old(Interest()), b, io)
    {
      if io !in epollEvents {
        return;
      }
      if epollEvents[io].Xor(b) == INIT {
        kernel := kernel - {io};
        epollEvents := epollEvents - {io};
        return;
      }
      epollEvents := epollEvents[io := epollEvents[io].Xor(b)];
      kernel := CtlModUnchecked(kernel, io, epollEvents[io]);
    }

    method DelEpollEvents(io: Fd)
      modifies this`epollEvents, this`kernel
      ensures Interest() == Forget(old(Interest()), io)
    {
      if io !in epollEvents {
        return;
      }
      kernel := kernel - {io};
      epollEvents := epollEvents - {io};
    }

    /** process_ctrl_event: the switch, then the event is handed back if asked for. */
    method ProcessCtrlEvent(returned: seq<Event>, e: Event, k: Answers) returns (returned': seq<Event>)
      modifies this`epollEvents, this`kernel
      ensures Interest() == Process(old(Interest()), e, k)
      ensures returned' == returned + (if e.ret then [e] else [])
    {
      match e.kind {
        case RegisterAll =>
          AddEpollEvent(In, e.io, k.rd);
          AddEpollEvent(Out, e.io, k.wr);
          AddEpollEvent(Err, e.io, k.er);
        case RegisterRead => AddEpollEvent(In, e.io, k.rd);
        case RegisterWrite => AddEpollEvent(Out, e.io, k.wr);
        case RegisterError => AddEpollEvent(Err, e.io, k.er);
        case RemoveRead => DelEpollEvent(In, e.io);
        case RemoveWrite => DelEpollEvent(Out, e.io);
        case RemoveError => DelEpollEvent(Err, e.io);
        case RemoveAll => DelEpollEvents(e.io);
        case _ =>
      }
      returned' := if e.ret then returned + [e] else returned;
    }
  }
}
