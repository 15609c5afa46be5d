/** The reactor as a step system: reactor/Reactor.cpp, reactor/Reactor.h and the
    wait loop of reactor/IoHandleDemuxer.h, one small step at a time.  The
    reactor thread moves through its phases; other threads, and the callbacks
    running on the reactor thread, post control events in between; the kernel
    answers as it likes. */
module Machine {
  import Bytes
  import opened Events
  import opened Demuxer
  import opened Timers

  // --------------------------------------------------------------------- state

  datatype Callback = OnRegistered | OnInput | OnOutput | OnError | OnClose | OnTimeout | OnRemoved | OnShutdown

  datatype Call = Call(x: Handler, cb: Callback)

  datatype Frame = Free | Busy(call: Call)

  datatype Phase =
    | Idle                                            // top of run's loop
    | Firing(due: seq<Handler>)                       // run_timeout_handler
    | Draining                                        // wait: wait_events_
    | Reading(ready: seq<Ready>, inbuf: seq<Event>)   // wait: the epoll batch
    | Dispatching                                     // dispatch
    | Shutting(left: seq<Handler>)                    // run_shutdown
    | Stopped

  /** wait_events_, the control pipe, and the events `wait` has returned but
      `dispatch` has not reached yet. */
  datatype Queues = Queues(waitq: seq<Event>, pipe: seq<Event>, batch: seq<Event>)

  /** The dispatcher's tables. */
  datatype Registry = Registry(
    handlers: map<Fd, Handler>,
    closeCall: set<Fd>,
    count: int,
    timer: map<Handler, nat>,
    stopping: bool)

  /** What the properties talk about besides: `owner`, the handler each descriptor
      was last registered for; `attached`, the handlers whose reactor_ field has been
      set; `refused`, the descriptors some epoll_ctl call was refused for;
      `calls`, every callback made. */
  datatype History = History(owner: map<Fd, Handler>, attached: set<Handler>, refused: set<Fd>, calls: seq<Call>)

  datatype State = State(t: Tables, q: Queues, phase: Phase, frame: Frame, reg: Registry, h: History)

  const START := State(Tables(map[], map[]), Queues([], [], []), Idle, Free,
                       Registry(map[], {}, 0, map[], false), History(map[], {}, {}, []))

  // -------------------------------------------------------- the reactor's calls

  datatype Api =
    | Register(x: Handler)
    | Remove(x: Handler)
    | Writable(x: Handler)
    | SetTimeout(x: Handler, msec: nat)
    | UnsetTimeout(x: Handler)
    | StopRun

  /** The control event each public call raises. */
  function EventOf(a: Api): Event {
    match a
    case Register(x) => Event(RegisterRead, x.io, Ptr(x), true)
    case Remove(x) => Event(RemoveAll, x.io, Ptr(x), true)
    case Writable(x) => Event(RegisterWrite, x.io, Ptr(x), false)
    case SetTimeout(x, msec) => Event(TimeoutAdd, x.io, Msec(msec), true)
    case UnsetTimeout(x) => Event(TimeoutDel, x.io, Null, true)
    case StopRun => Event(Stop, INVALID_IO_HANDLE, Null, true)
  }

  /** The events the dispatcher raises itself. */
  function RemoveWriteEvent(io: Fd): Event {
    Event(RemoveWrite, io, Null, false)
  }

  function RemoveStaleEvent(io: Fd): Event {
    Event(RemoveAll, io, Null, false)
  }

  /** raise_event accepts every event but one about the invalid handle. */
  predicate Accepted(e: Event) {
    IsUser(e.kind) || e.io != INVALID_IO_HANDLE
  }

  function RaiseHere(s: State, e: Event): State {
    if Accepted(e) then s.(q := s.q.(waitq := s.q.waitq + [e])) else s
  }

  function RaiseAcross(s: State, e: Event): State {
    if Accepted(e) then s.(q := s.q.(pipe := s.q.pipe + [e])) else s
  }

  function Post(s: State, a: Api, onReactor: bool): State {
    var s1 := if a.Register? then s.(h := s.h.(owner := s.h.owner[a.x.io := a.x])) else s;
    if onReactor then RaiseHere(s1, EventOf(a)) else RaiseAcross(s1, EventOf(a))
  }

  // ------------------------------------------------------------------- dispatch

  function Invoke(s: State, x: Handler, cb: Callback): State {
    s.(h := s.h.(calls := s.h.calls + [Call(x, cb)]), frame := Busy(Call(x, cb)))
  }

  /** dispatch_reactor_event */
  function DispatchUser(s: State, e: Event, now: nat): State
    requires IsUser(e.kind)
  {
    if e.kind.Stop? then s.(reg := s.reg.(stopping := true))
    else if e.io !in s.reg.handlers then s
    else if e.kind.TimeoutAdd? then
      s.(reg := s.reg.(timer := s.reg.timer[s.reg.handlers[e.io] := now + (if e.data.Msec? then e.data.msec % Bytes.TWO32 else 0) * MILLI]))
    else s.(reg := s.reg.(timer := s.reg.timer - {s.reg.handlers[e.io]}))
  }

  /** dispatch_demuxer_event_io */
  function DispatchIo(s: State, e: Event): State
    requires IsIo(e.kind)
  {
    if e.io !in s.reg.handlers then RaiseHere(s, RemoveStaleEvent(e.io))
    else
      var x := s.reg.handlers[e.io];
      match e.kind
      case Read => Invoke(s, x, OnInput)
      case Write => Invoke(RaiseHere(s, RemoveWriteEvent(x.io)), x, OnOutput)
      case Error => Invoke(s, x, OnError)
      case Close => if x.io in s.reg.closeCall then s else Invoke(s.(reg := s.reg.(closeCall := s.reg.closeCall + {x.io})), x, OnClose)
  }

  /** EVENT_REGISTER_READ comes back: emplace does not overwrite. */
  function Attach(s: State, io: Fd, x: Handler): State {
    var reg := s.reg.(count := s.reg.count + 1,
                      handlers := if io in s.reg.handlers then s.reg.handlers else s.reg.handlers[io := x]);
    Invoke(s.(reg := reg, h := s.h.(attached := s.h.attached + {x})), x, OnRegistered)
  }

  /** EVENT_REMOVE_ALL comes back; a second one finds nothing. */
  function Detach(s: State, io: Fd, x: Handler): State {
    if io !in s.reg.handlers then s
    else
      var reg := s.reg.(timer := s.reg.timer - {x}, handlers := s.reg.handlers - {io},
                        closeCall := s.reg.closeCall - {io}, count := s.reg.count - 1);
      Invoke(s.(reg := reg), x, OnRemoved)
  }

  /** dispatch_demuxer_event_result */
  function DispatchResult(s: State, e: Event): State
    requires !IsIo(e.kind)
  {
    if !e.data.Ptr? then s
    else
      match e.kind
      case RegisterRead => Attach(s, e.io, e.data.handler)
      case RemoveAll => Detach(s, e.io, e.data.handler)
      case _ => s
  }

  function Dispatch(s: State, e: Event, now: nat): State {
    if IsUser(e.kind) then DispatchResult(DispatchUser(s, e, now), e)
    else if IsIo(e.kind) then DispatchIo(s, e)
    else DispatchResult(s, e)
  }

  // ---------------------------------------------------------------------- steps

  datatype Action =
    | ApiCall(a: Api, onReactor: bool)
    | Return
    | ExtractDue(due: seq<Handler>)
    | FireNext
    | FireDone
    | BeginWait
    | DrainNext(k: Answers)
    | EnterDispatch
    | Poll(ready: seq<Ready>)
    | ReadPipe(n: nat)
    | ReadCtrl(k: Answers)
    | ReadIo
    | ReadDone
    | DispatchNext(now: nat)
    | DispatchDone(order: seq<Handler>)
    | ShutdownNext
    | ShutdownDone

  /** A listing of the registered handlers, each once: the order in which the
      shutdown loop happens to walk the hash map. */
  ghost predicate Lists(order: seq<Handler>, handlers: map<Fd, Handler>) {
    && (forall x :: x in order <==> x.io in handlers && handlers[x.io] == x)
    && (forall i, j :: 0 <= i < j < |order| ==> order[i] != order[j])
  }

  /** No handler twice. */
  predicate Once(due: seq<Handler>) {
    forall i, j :: 0 <= i < j < |due| ==> due[i] != due[j]
  }

  ghost predicate Enabled(s: State, a: Action) {
    if a.ApiCall? then !s.phase.Stopped? && (a.onReactor ==> s.frame.Busy?)
    else if a.Return? then s.frame.Busy?
    else s.frame.Free? && MayAdvance(s, a)
  }

  /** Which step the reactor thread's own control flow takes next. */
  ghost predicate MayAdvance(s: State, a: Action) {
    match a
    case ExtractDue(due) => s.phase.Idle? && (forall x :: x in due ==> x in s.reg.timer) && Once(due)
    case FireNext => s.phase.Firing? && s.phase.due != []
    case FireDone => s.phase.Firing? && s.phase.due == []
    case BeginWait => s.phase.Idle?
    case DrainNext(_) => s.phase.Draining? && s.q.waitq != []
    case EnterDispatch => s.phase.Draining? && s.q.waitq == [] && s.q.batch != []
    case Poll(ready) => s.phase.Draining? && s.q.waitq == [] && s.q.batch == [] && Reportable(s.t.kernel, ready)
    case ReadPipe(n) => s.phase.Reading? && s.phase.inbuf == [] && s.phase.ready != [] && s.phase.ready[0].PipeReady? && n <= |s.q.pipe|
    case ReadCtrl(_) => s.phase.Reading? && s.phase.inbuf != []
    case ReadIo => s.phase.Reading? && s.phase.inbuf == [] && s.phase.ready != [] && s.phase.ready[0].Io?
    case ReadDone => s.phase.Reading? && s.phase.inbuf == [] && s.phase.ready == []
    case DispatchNext(_) => s.phase.Dispatching? && s.q.batch != []
    case DispatchDone(order) => s.phase.Dispatching? && s.q.batch == [] && (s.reg.stopping ==> Lists(order, s.reg.handlers))
    case ShutdownNext => s.phase.Shutting? && s.phase.left != []
    case ShutdownDone => s.phase.Shutting? && s.phase.left == []
    case ApiCall(_, _) => false
    case Return => false
  }

  /** One control event goes through process_ctrl_event. */
  function Ctrl(s: State, e: Event, k: Answers): State {
    s.(t := Process(s.t, e, k),
       h := s.h.(refused := if ProcessRefused(s.t, e, k) then s.h.refused + {e.io} else s.h.refused),
       q := s.q.(batch := if e.ret then s.q.batch + [e] else s.q.batch))
  }

  function AfterReturn(s: State): State
    requires s.frame.Busy?
  {
    var s1 := s.(frame := Free);
    if s.frame.call.cb.OnShutdown? then RaiseHere(s1, RemoveStaleEvent(s.frame.call.x.io)) else s1
  }

  ghost function Apply(s: State, a: Action): State
    requires Enabled(s, a)
  {
    match a
    case ApiCall(api, onReactor) => Post(s, api, onReactor)
    case Return => AfterReturn(s)
    case ExtractDue(due) => s.(reg := s.reg.(timer := s.reg.timer - (set x | x in due)), phase := Firing(due))
    case FireNext => Invoke(s.(phase := Firing(s.phase.due[1..])), s.phase.due[0], OnTimeout)
    case FireDone => s.(phase := Idle)
    case BeginWait => s.(phase := Draining, q := s.q.(batch := []))
    case DrainNext(k) => Ctrl(s.(q := s.q.(waitq := s.q.waitq[1..])), s.q.waitq[0], k)
    case EnterDispatch => s.(phase := Dispatching)
    case Poll(ready) => s.(phase := Reading(ready, []))
    case ReadPipe(n) => s.(phase := Reading(s.phase.ready[1..], s.q.pipe[..n]), q := s.q.(pipe := s.q.pipe[n..]))
    case ReadCtrl(k) => Ctrl(s.(phase := Reading(s.phase.ready, s.phase.inbuf[1..])), s.phase.inbuf[0], k)
    case ReadIo => s.(phase := Reading(s.phase.ready[1..], []), q := s.q.(batch := s.q.batch + Emit(s.phase.ready[0])))
    case ReadDone => s.(phase := Dispatching)
    case DispatchNext(now) => Dispatch(s.(q := s.q.(batch := s.q.batch[1..])), s.q.batch[0], now)
    case DispatchDone(order) => s.(phase := if s.reg.stopping then Shutting(order) else Idle)
    case ShutdownNext =>
      var x := s.phase.left[0];
      Invoke(s.(phase := Shutting(s.phase.left[1..]), reg := s.reg.(timer := s.reg.timer - {x})), x, OnShutdown)
    case ShutdownDone => s.(phase := Stopped)
  }

  /** A run: actions taken one after the other, each enabled in its turn. */
  ghost predicate Run(s: State, acts: seq<Action>, s': State)
    decreases |acts|
  {
    if acts == [] then s == s'
    else Enabled(s, acts[0]) && Run(Apply(s, acts[0]), acts[1..], s')
  }

  lemma {:induction false} RunJoin(s: State, a: seq<Action>, s1: State, b: seq<Action>, s2: State)
    requires Run(s, a, s1) && Run(s1, b, s2)
    ensures Run(s, a + b, s2)
    decreases |a|
  {
    hide Apply, Enabled;
    if a == [] {
      assert a + b == b;
    } else {
      RunJoin(Apply(s, a[0]), a[1..], s1, b, s2);
      assert (a + b)[1..] == a[1..] + b;
    }
  }

  // -------------------------------------------------------- the clients' promise

  /** The handler its descriptor was last registered for. */
  predicate Owns(h: History, x: Handler) {
    x.io in h.owner && h.owner[x.io] == x
  }

  /** Nothing is left of the handler a descriptor was registered for before: no
      table has it, and no event about it is on its way. */
  ghost predicate Unused(s: State, io: Fd) {
    && io !in s.reg.handlers && io !in s.t.user
    && forall e: Event :: e.io == io ==> Flow(s, e) == 0
  }

  /** A descriptor that was registered before is registered again, for a new
      handler, only when it is unused; a handler's removal and its interest in
      output are asked for between the call that registers it and the next for the
      same descriptor.  Timeouts may be set and unset for anybody at any time. */
  ghost predicate FreshCall(s: State, a: Api) {
    match a
    case Register(x) => x.io != INVALID_IO_HANDLE && x !in s.h.attached && (x.io in s.h.owner ==> Unused(s, x.io))
    case Remove(x) => Owns(s.h, x)
    case Writable(x) => Owns(s.h, x)
    case SetTimeout(_, _) => true
    case UnsetTimeout(_) => true
    case StopRun => true
  }

  /** Stronger: a handler asks for output through its reactor_ field, which is
      null until the registration has been dispatched. */
  ghost predicate AttachedCall(s: State, a: Api) {
    && FreshCall(s, a)
    && (a.Writable? ==> a.x in s.h.attached)
  }

  ghost predicate Fresh(s: State, a: Action) {
    a.ApiCall? ==> FreshCall(s, a.a)
  }

  ghost predicate Attached(s: State, a: Action) {
    a.ApiCall? ==> AttachedCall(s, a.a)
  }

  // ------------------------------------------------------------ events in flight

  /** All events a list of ready descriptors is going to produce. */
  function EmitAll(ready: seq<Ready>): seq<Event> {
    if ready == [] then [] else Emit(ready[0]) + EmitAll(ready[1..])
  }

  /** How often an event occurs in a queue. */
  function Num(q: seq<Event>, e: Event): nat {
    multiset(q)[e]
  }

  ghost function Inbound(p: Phase, e: Event): nat {
    if p.Reading? then Num(p.inbuf, e) + Num(EmitAll(p.ready), e) else 0
  }

  /** How often an event is on its way: queued, read from the pipe, announced by
      the kernel, or waiting in the batch. */
  ghost function Flow(s: State, e: Event): nat {
    Num(s.q.batch, e) + Num(s.q.waitq, e) + Num(s.q.pipe, e) + Inbound(s.phase, e)
  }

  lemma NumJoin(p: seq<Event>, q: seq<Event>, e: Event)
    ensures Num(p + q, e) == Num(p, e) + Num(q, e)
  {
  }

  lemma NumHead(q: seq<Event>, e: Event)
    requires q != []
    ensures Num(q, e) == Num(q[1..], e) + (if q[0] == e then 1 else 0)
  {
    assert q == [q[0]] + q[1..];
    NumJoin([q[0]], q[1..], e);
  }

  lemma NumIn(q: seq<Event>, e: Event)
    ensures Num(q, e) > 0 <==> e in q
  {
  }

  lemma NumLast(q: seq<Event>, last: Event, e: Event)
    ensures Num(q + [last], e) == Num(q, e) + (if last == e then 1 else 0)
  {
    NumJoin(q, [last], e);
  }

  /** The event the dispatcher raises on its own account, if any. */
  function Raised(s: State, e: Event): seq<Event> {
    if !IsIo(e.kind) then []
    else if e.io !in s.reg.handlers then (if Accepted(RemoveStaleEvent(e.io)) then [RemoveStaleEvent(e.io)] else [])
    else if e.kind.Write? && Accepted(RemoveWriteEvent(s.reg.handlers[e.io].io)) then [RemoveWriteEvent(s.reg.handlers[e.io].io)]
    else []
  }

  lemma DispatchQueues(s: State, c: Event, now: nat)
    ensures var s' := Dispatch(s, c, now);
            s'.q == s.q.(waitq := s.q.waitq + Raised(s, c)) && s'.phase == s.phase
  {
    assert s.q == s.q.(waitq := s.q.waitq + []);
  }

  function One(b: bool): nat {
    if b then 1 else 0
  }

  /** How each step changes the number of times an event is in flight. */
  ghost function FlowAfter(s: State, a: Action, e: Event): int
    requires Enabled(s, a)
  {
    var n := Flow(s, e);
    match a
    case ApiCall(api, _) => n + One(EventOf(api) == e && Accepted(e))
    case Return => n + One(s.frame.call.cb.OnShutdown? && RemoveStaleEvent(s.frame.call.x.io) == e && Accepted(e))
    case DrainNext(_) => n - One(s.q.waitq[0] == e && !e.ret)
    case ReadCtrl(_) => n - One(s.phase.inbuf[0] == e && !e.ret)
    case Poll(ready) => n + Num(EmitAll(ready), e)
    case BeginWait => n - Num(s.q.batch, e)
    case DispatchNext(_) => n - One(s.q.batch[0] == e) + Num(Raised(s, s.q.batch[0]), e)
    case _ => n
  }

  lemma FlowCtrl(s: State, c: Event, k: Answers, e: Event)
    ensures Flow(Ctrl(s, c, k), e) == Flow(s, e) + One(c == e && e.ret)
  {
    NumLast(s.q.batch, c, e);
  }

  lemma FlowRaise(s: State, r: Event, e: Event)
    ensures Flow(RaiseHere(s, r), e) == Flow(s, e) + One(r == e && Accepted(r))
    ensures Flow(RaiseAcross(s, r), e) == Flow(s, e) + One(r == e && Accepted(r))
  {
    NumLast(s.q.waitq, r, e);
    NumLast(s.q.pipe, r, e);
  }

  lemma FlowDispatch(s: State, c: Event, now: nat, e: Event)
    ensures Flow(Dispatch(s, c, now), e) == Flow(s, e) + Num(Raised(s, c), e)
  {
    DispatchQueues(s, c, now);
    NumJoin(s.q.waitq, Raised(s, c), e);
  }

  lemma FlowReadPipe(s: State, a: Action, e: Event)
    requires Enabled(s, a) && a.ReadPipe?
    ensures Flow(Apply(s, a), e) == FlowAfter(s, a, e)
  {
    hide Num, EmitAll;
    assert s.q.pipe == s.q.pipe[..a.n] + s.q.pipe[a.n..];
    NumJoin(s.q.pipe[..a.n], s.q.pipe[a.n..], e);
    NumNone(e);
    EmitFirst(s.phase.ready, e);
  }

  lemma FlowReadIo(s: State, a: Action, e: Event)
    requires Enabled(s, a) && a.ReadIo?
    ensures Flow(Apply(s, a), e) == FlowAfter(s, a, e)
  {
    hide Num, EmitAll, Emit;
    EmitFirst(s.phase.ready, e);
    NumJoin(s.q.batch, Emit(s.phase.ready[0]), e);
  }

  lemma EmitFirst(ready: seq<Ready>, e: Event)
    requires ready != []
    ensures Num(EmitAll(ready), e) == Num(Emit(ready[0]), e) + Num(EmitAll(ready[1..]), e)
    ensures ready[0].PipeReady? ==> Num(Emit(ready[0]), e) == 0
  {
    NumJoin(Emit(ready[0]), EmitAll(ready[1..]), e);
  }

  lemma NumNone(e: Event)
    ensures Num([], e) == 0
  {
  }

  lemma FlowReadCtrl(s: State, a: Action, e: Event)
    requires Enabled(s, a) && a.ReadCtrl?
    ensures Flow(Apply(s, a), e) == FlowAfter(s, a, e)
  {
    hide Num, Ctrl;
    NumHead(s.phase.inbuf, e);
    FlowCtrl(s.(phase := Reading(s.phase.ready, s.phase.inbuf[1..])), s.phase.inbuf[0], a.k, e);
  }

  lemma FlowCall(s: State, a: Action, e: Event)
    requires Enabled(s, a) && a.ApiCall?
    ensures Flow(Apply(s, a), e) == FlowAfter(s, a, e)
  {
    hide Num, EventOf, RaiseHere, RaiseAcross;
    var s1 := if a.a.Register? then s.(h := s.h.(owner := s.h.owner[a.a.x.io := a.a.x])) else s;
    FlowRaise(s1, EventOf(a.a), e);
  }

  lemma FlowReturn(s: State, a: Action, e: Event)
    requires Enabled(s, a) && a.Return?
    ensures Flow(Apply(s, a), e) == FlowAfter(s, a, e)
  {
    hide Num, RaiseHere;
    FlowRaise(s.(frame := Free), RemoveStaleEvent(s.frame.call.x.io), e);
  }

  lemma FlowDrain(s: State, a: Action, e: Event)
    requires Enabled(s, a) && a.DrainNext?
    ensures Flow(Apply(s, a), e) == FlowAfter(s, a, e)
  {
    hide Num, Ctrl;
    NumHead(s.q.waitq, e);
    FlowCtrl(s.(q := s.q.(waitq := s.q.waitq[1..])), s.q.waitq[0], a.k, e);
  }

  lemma FlowDispatchNext(s: State, a: Action, e: Event)
    requires Enabled(s, a) && a.DispatchNext?
    ensures Flow(Apply(s, a), e) == FlowAfter(s, a, e)
  {
    hide Num, Dispatch;
    NumHead(s.q.batch, e);
    FlowDispatch(s.(q := s.q.(batch := s.q.batch[1..])), s.q.batch[0], a.now, e);
  }

  lemma FlowElse(s: State, a: Action, e: Event)
    requires Enabled(s, a)
    requires !a.ReadCtrl? && !a.ReadPipe? && !a.ReadIo? && !a.DrainNext? && !a.DispatchNext? && !a.ApiCall? && !a.Return?
    ensures Flow(Apply(s, a), e) == FlowAfter(s, a, e)
  {
    hide Num, Ctrl, Dispatch, RaiseHere, RaiseAcross, EventOf;
    NumNone(e);
  }

  lemma FlowStep(s: State, a: Action, e: Event)
    requires Enabled(s, a)
    ensures Flow(Apply(s, a), e) == FlowAfter(s, a, e)
  {
    hide Apply, Enabled, Flow, FlowAfter;
    if a.ReadCtrl? {
      FlowReadCtrl(s, a, e);
    } else if a.ReadPipe? {
      FlowReadPipe(s, a, e);
    } else if a.ReadIo? {
      FlowReadIo(s, a, e);
    } else if a.DrainNext? {
      FlowDrain(s, a, e);
    } else if a.DispatchNext? {
      FlowDispatchNext(s, a, e);
    } else if a.ApiCall? {
      FlowCall(s, a, e);
    } else if a.Return? {
      FlowReturn(s, a, e);
    } else {
      FlowElse(s, a, e);
    }
  }
}
