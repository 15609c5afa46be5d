/** reactor/Reactor.h and reactor/Reactor.cpp as a class.  Each method returns,
    beside its results, the steps of `Machine` it has taken; so whatever holds
    along every run of that machine holds of this object. */
module Reactors {
  import Bytes
  import opened Events
  import opened Demuxer
  import opened Timers
  import opened Machine
  import opened Lifecycle
  import opened Order
  import opened Interest

  // ----------------------------------------------- single steps of the machine

  lemma OneStep(s: State, a: Action)
    requires Enabled(s, a) && Attached(s, a)
    ensures AttachedRun(s, [a], Apply(s, a))
  {
    AttachedSnoc(s, [], s, a);
    assert [] + [a] == [a];
  }

  lemma BeginWaitIs(s: State)
    requires s.phase.Idle? && s.frame.Free?
    ensures Enabled(s, BeginWait) && Attached(s, BeginWait)
    ensures Apply(s, BeginWait) == s.(phase := Draining, q := s.q.(batch := []))
  {
  }

  lemma DrainNextIs(s: State, k: Answers)
    requires s.phase.Draining? && s.frame.Free? && s.q.waitq != []
    ensures Enabled(s, DrainNext(k)) && Attached(s, DrainNext(k))
    ensures Apply(s, DrainNext(k)) == Ctrl(s.(q := s.q.(waitq := s.q.waitq[1..])), s.q.waitq[0], k)
  {
  }

  lemma ReadPipeIs(s: State, n: nat)
    requires s.phase.Reading? && s.frame.Free? && s.phase.inbuf == []
    requires s.phase.ready != [] && s.phase.ready[0].PipeReady? && n <= |s.q.pipe|
    ensures Enabled(s, ReadPipe(n)) && Attached(s, ReadPipe(n))
    ensures Apply(s, ReadPipe(n)) == s.(phase := Reading(s.phase.ready[1..], s.q.pipe[..n]), q := s.q.(pipe := s.q.pipe[n..]))
  {
  }

  lemma NoStep(s: State)
    ensures AttachedRun(s, [], s)
  {
  }

  lemma ReadIoIs(s: State)
    requires s.phase.Reading? && s.frame.Free? && s.phase.inbuf == [] && s.phase.ready != [] && s.phase.ready[0].Io?
    ensures Enabled(s, ReadIo) && Attached(s, ReadIo)
    ensures Apply(s, ReadIo) == s.(phase := Reading(s.phase.ready[1..], []), q := s.q.(batch := s.q.batch + Emit(s.phase.ready[0])))
  {
  }

  lemma ReadDoneIs(s: State)
    requires s.phase.Reading? && s.frame.Free? && s.phase.inbuf == [] && s.phase.ready == []
    ensures Enabled(s, ReadDone) && Attached(s, ReadDone)
    ensures Apply(s, ReadDone) == s.(phase := Dispatching)
  {
  }

  lemma ReadCtrlIs(s: State, k: Answers)
    requires s.phase.Reading? && s.frame.Free? && s.phase.inbuf != []
    ensures Enabled(s, ReadCtrl(k)) && Attached(s, ReadCtrl(k))
    ensures Apply(s, ReadCtrl(k)) == Ctrl(s.(phase := Reading(s.phase.ready, s.phase.inbuf[1..])), s.phase.inbuf[0], k)
  {
  }

  /** The calls of run_timeout_handler. */
  function TimeoutCalls(due: seq<Handler>): seq<Call> {
    seq(|due|, i requires 0 <= i < |due| => Call(due[i], OnTimeout))
  }

  lemma FireNextIs(s: State)
    requires s.phase.Firing? && s.frame.Free? && s.phase.due != []
    ensures Enabled(s, FireNext) && Attached(s, FireNext)
    ensures Apply(s, FireNext) == Invoke(s.(phase := Firing(s.phase.due[1..])), s.phase.due[0], OnTimeout)
  {
  }

  lemma FireDoneIs(s: State)
    requires s.phase.Firing? && s.frame.Free? && s.phase.due == []
    ensures Enabled(s, FireDone) && Attached(s, FireDone)
    ensures Apply(s, FireDone) == s.(phase := Idle)
  {
  }

  /** The promise of `AttachedCall`, as far as it can be checked from outside: a
      descriptor is new, and so is its handler. */
  predicate PlainCall(h: History, a: Api) {
    match a
    case Register(x) => x.io != INVALID_IO_HANDLE && x.io !in h.owner && x !in h.attached
    case Remove(x) => Owns(h, x)
    case Writable(x) => Owns(h, x) && x in h.attached
    case SetTimeout(_, _) => true
    case UnsetTimeout(_) => true
    case StopRun => true
  }

  lemma PlainIsAttached(s: State, a: Api)
    requires PlainCall(s.h, a)
    ensures AttachedCall(s, a)
  {
  }

  class Reactor {
    const demuxer: IoHandleDemuxer
    const timer: ObjectsTimer<Handler>
    var handlers: map<Fd, Handler>
    var closeCall: set<Fd>
    var count: int
    var stop: bool

    /** What has happened so far: registrations, attachments, refusals, calls. */
    var h: History

    ghost predicate Valid()
      reads this, timer
    {
      timer.Valid()
    }

    /** The machine state this object is in, given where control is. */
    ghost function At(waitq: seq<Event>, batch: seq<Event>, phase: Phase, frame: Frame, stopping: bool): State
      reads this, demuxer, timer
    {
      State(demuxer.Interest(), Queues(waitq, demuxer.pipe, batch), phase, frame,
            Registry(handlers, closeCall, count, timer.Model(), stopping), h)
    }

    /** The same, with wait_events_ as it stands. */
    ghost function Now(batch: seq<Event>, phase: Phase, frame: Frame, stopping: bool): State
      reads this, demuxer, timer
    {
      At(demuxer.waitEvents, batch, phase, frame, stopping)
    }

    constructor ()
      ensures Valid() && fresh(demuxer) && fresh(timer)
      ensures Now([], Idle, Free, false) == START && !stop
    {
      demuxer := new IoHandleDemuxer();
      timer := new ObjectsTimer<Handler>();
      handlers, closeCall, count, stop := map[], {}, 0, false;
      h := History(map[], {}, {}, []);
    }

    // ------------------------------------------------------------- public calls

    /** register_event_handler, remove_event_handler, register_writable,
        set_timeout, unset_timeout, stop: each raises its control event, on the
        pipe or (from the reactor's own thread) on wait_events_. */
    method Raise(a: Api, onReactor: bool) returns (ok: bool)
      modifies this`h, demuxer`waitEvents, demuxer`pipe
      ensures ok <==> (a.StopRun? || !stop) && Accepted(EventOf(a))
      ensures stop && !a.StopRun? ==> unchanged(this) && unchanged(demuxer)
      ensures h.calls == old(h.calls)
      ensures !stop ==> forall batch, phase, frame, stopping ::
                Now(batch, phase, frame, stopping) == Post(old(Now(batch, phase, frame, stopping)), a, onReactor)
      ensures !onReactor ==> demuxer.waitEvents == old(demuxer.waitEvents)
      ensures !stop && !onReactor ==> forall waitq, batch, phase, frame, stopping ::
                At(waitq, batch, phase, frame, stopping) == Post(old(At(waitq, batch, phase, frame, stopping)), a, false)
    {
      if stop && !a.StopRun? {
        return false;
      }
      if a.Register? {
        h := h.(owner := h.owner[a.x.io := a.x]);
      }
      ok := demuxer.RaiseEvent(EventOf(a), onReactor);
    }

    // ------------------------------------------------- what the reactor does not know

    /** A reading of the steady clock. */
    method Tick(last: nat) returns (now: nat)
      ensures last <= now
    {
      now :| last <= now;
    }

    /** Other threads, at any moment: any number of calls, on the pipe. */
    method OtherThreads(ghost waitq: seq<Event>, ghost batch: seq<Event>, ghost phase: Phase, ghost frame: Frame, ghost stopping: bool)
      returns (ghost acts: seq<Action>)
      requires Valid() && !stop && !phase.Stopped?
      modifies this`h, demuxer`waitEvents, demuxer`pipe
      ensures Valid() && demuxer.waitEvents == old(demuxer.waitEvents)
      ensures AttachedRun(old(At(waitq, batch, phase, frame, stopping)), acts, At(waitq, batch, phase, frame, stopping))
    {
      acts := [];
      var calls: int := *;
      while calls > 0
        invariant Valid() && demuxer.waitEvents == old(demuxer.waitEvents)
        invariant AttachedRun(old(At(waitq, batch, phase, frame, stopping)), acts, At(waitq, batch, phase, frame, stopping))
      {
        calls := calls - 1;
        var a: Api := *;
        if PlainCall(h, a) {
          ghost var s := At(waitq, batch, phase, frame, stopping);
          PlainIsAttached(s, a);
          var _ := Raise(a, false);
          assert At(waitq, batch, phase, frame, stopping) == Apply(s, ApiCall(a, false));
          AttachedSnoc(old(At(waitq, batch, phase, frame, stopping)), acts, s, ApiCall(a, false));
          acts := acts + [ApiCall(a, false)];
        }
      }
    }

    /** A virtual function of a handler: any number of calls back into the reactor. */
    method RunCallback(x: Handler, cb: Callback, ghost batch: seq<Event>, ghost phase: Phase, ghost stopping: bool)
      returns (ghost acts: seq<Action>)
      requires Valid() && !stop && !phase.Stopped?
      modifies this`h, demuxer`waitEvents, demuxer`pipe
      ensures Valid()
      ensures AttachedRun(Invoke(old(Now(batch, phase, Free, stopping)), x, cb), acts, Now(batch, phase, Busy(Call(x, cb)), stopping))
      ensures h.calls == old(h.calls) + [Call(x, cb)]
    {
      h := h.(calls := h.calls + [Call(x, cb)]);
      ghost var f := Busy(Call(x, cb));
      ghost var s0 := Now(batch, phase, f, stopping);
      acts := [];
      var calls: int := *;
      while calls > 0
        invariant Valid()
        invariant AttachedRun(s0, acts, Now(batch, phase, f, stopping))
        invariant h.calls == old(h.calls) + [Call(x, cb)]
      {
        calls := calls - 1;
        var a: Api := *;
        var here: bool := *;
        if PlainCall(h, a) {
          ghost var s := Now(batch, phase, f, stopping);
          PlainIsAttached(s, a);
          var _ := Raise(a, here);
          AttachedSnoc(s0, acts, s, ApiCall(a, here));
          acts := acts + [ApiCall(a, here)];
        }
      }
    }

    // ----------------------------------------------------------------------- wait

    /** One control event, with whatever the kernel answers. */
    method Process1(events: seq<Event>, e: Event) returns (events': seq<Event>, k: Answers)
      modifies this`h, demuxer`epollEvents, demuxer`kernel
      ensures forall waitq, phase, frame, stopping ::
                At(waitq, events', phase, frame, stopping) == Ctrl(old(At(waitq, events, phase, frame, stopping)), e, k)
    {
      var rd: bool, wr: bool, er: bool := *, *, *;
      k := Answers(rd, wr, er);
      h := h.(refused := if ProcessRefused(Tables(demuxer.epollEvents, demuxer.kernel), e, k) then h.refused + {e.io} else h.refused);
      events' := demuxer.ProcessCtrlEvent(events, e, k);
    }

    /** The first half of wait: everything in wait_events_ is processed. */
    method Drain(ghost stopping: bool) returns (events: seq<Event>, ghost acts: seq<Action>)
      requires Valid() && !stop
      modifies this`h, demuxer
      ensures Valid() && demuxer.waitEvents == []
      ensures AttachedRun(old(Now([], Idle, Free, stopping)), acts, Now(events, Draining, Free, stopping))
      ensures BeginWait in acts
    {
      hide AttachedRun, Apply, Enabled;
      ghost var s0 := Now([], Idle, Free, stopping);
      events := [];
      BeginWaitIs(s0);
      OneStep(s0, BeginWait);
      acts := [BeginWait];
      var todo := demuxer.waitEvents;
      var i := 0;
      assert todo[0..] == todo;
      while i < |todo|
        invariant 0 <= i <= |todo| && todo == demuxer.waitEvents
        invariant Valid()
        invariant AttachedRun(s0, acts, At(todo[i..], events, Draining, Free, stopping))
        invariant BeginWait in acts
      {
        ghost var before := At(todo[i..], events, Draining, Free, stopping);
        ghost var more;
        assert todo[i..] == [todo[i]] + todo[i + 1..];
        events, more := DrainOne(events, todo[i], todo[i + 1..], stopping);
        AttachedJoin(s0, acts, before, more, At(todo[i + 1..], events, Draining, Free, stopping));
        acts := acts + more;
        i := i + 1;
      }
      assert todo[i..] == [];
      demuxer.waitEvents := [];
    }

    /** One control event of wait_events_ is processed. */
    method DrainOne(events: seq<Event>, e: Event, ghost tail: seq<Event>, ghost stopping: bool) returns (events': seq<Event>, ghost acts: seq<Action>)
      requires Valid() && !stop
      modifies this`h, demuxer
      ensures Valid() && demuxer.waitEvents == old(demuxer.waitEvents)
      ensures AttachedRun(old(At([e] + tail, events, Draining, Free, stopping)), acts, At(tail, events', Draining, Free, stopping))
    {
      hide AttachedRun, Apply, Enabled;
      ghost var before := At([e] + tail, events, Draining, Free, stopping);
      acts := OtherThreads([e] + tail, events, Draining, Free, stopping);
      ghost var s := At([e] + tail, events, Draining, Free, stopping);
      var k;
      events', k := Process1(events, e);
      assert ([e] + tail)[1..] == tail;
      DrainNextIs(s, k);
      AttachedSnoc(before, acts, s, DrainNext(k));
      acts := acts + [DrainNext(k)];
    }

    /** One control event read from the pipe is processed. */
    method ReadOne(events: seq<Event>, e: Event, ghost tail: seq<Event>, ghost rest: seq<Ready>, ghost stopping: bool) returns (events': seq<Event>, ghost acts: seq<Action>)
      requires Valid() && !stop
      modifies this`h, demuxer
      ensures Valid()
      ensures AttachedRun(old(Now(events, Reading(rest, [e] + tail), Free, stopping)), acts,
                          Now(events', Reading(rest, tail), Free, stopping))
    {
      hide AttachedRun, Apply, Enabled;
      ghost var before := Now(events, Reading(rest, [e] + tail), Free, stopping);
      acts := OtherThreads(demuxer.waitEvents, events, Reading(rest, [e] + tail), Free, stopping);
      ghost var s := Now(events, Reading(rest, [e] + tail), Free, stopping);
      var k;
      events', k := Process1(events, e);
      assert ([e] + tail)[1..] == tail;
      ReadCtrlIs(s, k);
      AttachedSnoc(before, acts, s, ReadCtrl(k));
      acts := acts + [ReadCtrl(k)];
    }

    /** The control pipe is readable: whatever one read() returns is processed. */
    method ReadPipeEvents(events: seq<Event>, ghost rest: seq<Ready>, ghost stopping: bool) returns (events': seq<Event>, ghost acts: seq<Action>)
      requires Valid() && !stop
      modifies this`h, demuxer
      ensures Valid()
      ensures AttachedRun(old(Now(events, Reading([PipeReady] + rest, []), Free, stopping)), acts,
                          Now(events', Reading(rest, []), Free, stopping))
    {
      hide AttachedRun, Apply, Enabled;
      ghost var s0 := Now(events, Reading([PipeReady] + rest, []), Free, stopping);
      var n: int := *;
      if n < 0 || |demuxer.pipe| < n {
        n := 0;
      }
      var inbuf := demuxer.pipe[..n];
      demuxer.pipe := demuxer.pipe[n..];
      assert ([PipeReady] + rest)[1..] == rest;
      ReadPipeIs(s0, n);
      OneStep(s0, ReadPipe(n));
      acts := [ReadPipe(n)];
      events' := events;
      var i := 0;
      assert inbuf[0..] == inbuf;
      while i < |inbuf|
        invariant 0 <= i <= |inbuf|
        invariant Valid()
        invariant AttachedRun(s0, acts, Now(events', Reading(rest, inbuf[i..]), Free, stopping))
      {
        ghost var before := Now(events', Reading(rest, inbuf[i..]), Free, stopping);
        ghost var more;
        assert inbuf[i..] == [inbuf[i]] + inbuf[i + 1..];
        events', more := ReadOne(events', inbuf[i], inbuf[i + 1..], rest, stopping);
        AttachedJoin(s0, acts, before, more, Now(events', Reading(rest, inbuf[i + 1..]), Free, stopping));
        acts := acts + more;
        i := i + 1;
      }
      assert inbuf[i..] == [];
    }

    /** One ready descriptor: up to four events. */
    method Report(events: seq<Event>, r: Ready) returns (events': seq<Event>)
      requires r.Io?
      ensures events' == events + Emit(r)
    {
      events' := events;
      if r.rd {
        events' := events' + [Event(Read, r.io, Null, true)];
      }
      if r.wr && !r.er {
        events' := events' + [Event(Write, r.io, Null, true)];
      }
      if r.er {
        events' := events' + [Event(Error, r.io, Null, true)];
      }
      if r.hup {
        events' := events' + [Event(Close, r.io, Null, true)];
      }
    }

    /** The second half of wait: the descriptors of one epoll batch, in order. */
    method ReadBatch(ready: seq<Ready>, ghost stopping: bool) returns (events: seq<Event>, ghost acts: seq<Action>)
      requires Valid() && !stop
      modifies this`h, demuxer
      ensures Valid()
      ensures AttachedRun(old(Now([], Reading(ready, []), Free, stopping)), acts, Now(events, Dispatching, Free, stopping))
    {
      hide AttachedRun, Apply, Enabled;
      ghost var s0 := Now([], Reading(ready, []), Free, stopping);
      events, acts := [], [];
      NoStep(s0);
      var i := 0;
      assert ready[0..] == ready;
      while i < |ready|
        invariant 0 <= i <= |ready|
        invariant Valid()
        invariant AttachedRun(s0, acts, Now(events, Reading(ready[i..], []), Free, stopping))
      {
        ghost var s := Now(events, Reading(ready[i..], []), Free, stopping);
        assert ready[i..] == [ready[i]] + ready[i + 1..];
        if ready[i].PipeReady? {
          ghost var more;
          events, more := ReadPipeEvents(events, ready[i + 1..], stopping);
          AttachedJoin(s0, acts, s, more, Now(events, Reading(ready[i + 1..], []), Free, stopping));
          acts := acts + more;
        } else {
          events := Report(events, ready[i]);
          ReadIoIs(s);
          AttachedSnoc(s0, acts, s, ReadIo);
          acts := acts + [ReadIo];
        }
        i := i + 1;
      }
      assert ready[i..] == [];
      ReadDoneIs(Now(events, Reading([], []), Free, stopping));
      AttachedSnoc(s0, acts, Now(events, Reading([], []), Free, stopping), ReadDone);
      acts := acts + [ReadDone];
    }

    /** wait: the local queue first; if it returned nothing, one epoll batch. */
    method Wait(ghost stopping: bool) returns (events: seq<Event>, ghost acts: seq<Action>)
      requires Valid() && !stop
      modifies this`h, demuxer
      ensures Valid()
      ensures AttachedRun(old(Now([], Idle, Free, stopping)), acts, Now(events, Dispatching, Free, stopping))
      ensures BeginWait in acts
    {
      ghost var s0 := Now([], Idle, Free, stopping);
      events, acts := Drain(stopping);
      ghost var s := Now(events, Draining, Free, stopping);
      if |events| > 0 {
        AttachedSnoc(s0, acts, s, EnterDispatch);
        acts := acts + [EnterDispatch];
        return;
      }
      var ready: seq<Ready> := *;
      if !Reportable(demuxer.kernel, ready) {
        ready := [];
      }
      AttachedSnoc(s0, acts, s, Poll(ready));
      acts := acts + [Poll(ready)];
      ghost var more;
      ghost var s1 := Now([], Reading(ready, []), Free, stopping);
      events, more := ReadBatch(ready, stopping);
      AttachedJoin(s0, acts, s1, more, Now(events, Dispatching, Free, stopping));
      acts := acts + more;
    }

    // ------------------------------------------------------------------- dispatch

    /** dispatch_reactor_event */
    method DispatchReactorEvent(e: Event, now: nat, isStopEvent: bool) returns (isStopEvent': bool)
      requires Valid()
      modifies timer
      ensures Valid()
      ensures forall batch ::
                Now(batch, Dispatching, Free, isStopEvent') ==
                (var s := old(Now(batch, Dispatching, Free, isStopEvent)); if IsUser(e.kind) then DispatchUser(s, e, now) else s)
    {
      hide MinTimeout, Inverse;
      isStopEvent' := isStopEvent;
      if !IsUser(e.kind) {
        return;
      }
      if e.kind.Stop? {
        isStopEvent' := true;
        return;
      }
      if e.io !in handlers {
        return;
      }
      if e.kind.TimeoutAdd? {
        var msec := if e.data.Msec? then e.data.msec % Bytes.TWO32 else 0;
        var _ := timer.RegisterTimeout(msec, handlers[e.io], now, now);
        return;
      }
      var _ := timer.RemoveTimeout(handlers[e.io]);
    }

    /** A callback and the return from it. */
    method CallHandler(x: Handler, cb: Callback, ghost batch: seq<Event>, ghost phase: Phase, ghost stopping: bool)
      returns (ghost acts: seq<Action>)
      requires Valid() && !stop && !phase.Stopped? && !cb.OnShutdown?
      modifies this`h, demuxer`waitEvents, demuxer`pipe
      ensures Valid()
      ensures AttachedRun(Invoke(old(Now(batch, phase, Free, stopping)), x, cb), acts, Now(batch, phase, Free, stopping))
      ensures h.calls == old(h.calls) + [Call(x, cb)]
    {
      ghost var s0 := Invoke(Now(batch, phase, Free, stopping), x, cb);
      acts := RunCallback(x, cb, batch, phase, stopping);
      AttachedSnoc(s0, acts, Now(batch, phase, Busy(Call(x, cb)), stopping), Return);
      acts := acts + [Return];
    }

    /** dispatch_demuxer_event_io */
    method DispatchDemuxerEventIo(e: Event, ghost batch: seq<Event>, ghost stopping: bool) returns (ghost acts: seq<Action>)
      requires Valid() && !stop
      modifies this`h, this`closeCall, demuxer`waitEvents, demuxer`pipe
      ensures Valid()
      ensures var s := old(Now(batch, Dispatching, Free, stopping));
              if IsIo(e.kind) then AttachedRun(DispatchIo(s, e), acts, Now(batch, Dispatching, Free, stopping))
              else acts == [] && Now(batch, Dispatching, Free, stopping) == s
    {
      hide AttachedRun, Apply, Enabled;
      NoStep(Now(batch, Dispatching, Free, stopping));
      acts := [];
      if !IsIo(e.kind) {
        return;
      }
      if e.io !in handlers {
        var _ := demuxer.RaiseEvent(RemoveStaleEvent(e.io), true);
        assert Now(batch, Dispatching, Free, stopping) == RaiseHere(old(Now(batch, Dispatching, Free, stopping)), RemoveStaleEvent(e.io));
        NoStep(Now(batch, Dispatching, Free, stopping));
        return;
      }
      var x := handlers[e.io];
      match e.kind {
        case Read => acts := CallHandler(x, OnInput, batch, Dispatching, stopping);
        case Write =>
          var _ := demuxer.RaiseEvent(RemoveWriteEvent(x.io), true);
          assert Now(batch, Dispatching, Free, stopping) == RaiseHere(old(Now(batch, Dispatching, Free, stopping)), RemoveWriteEvent(x.io));
          acts := CallHandler(x, OnOutput, batch, Dispatching, stopping);
        case Error => acts := CallHandler(x, OnError, batch, Dispatching, stopping);
        case Close =>
          if x.io in closeCall {
            return;
          }
          closeCall := closeCall + {x.io};
          acts := CallHandler(x, OnClose, batch, Dispatching, stopping);
      }
    }

    /** dispatch_demuxer_event_result */
    method DispatchDemuxerEventResult(e: Event, ghost batch: seq<Event>, ghost stopping: bool) returns (ghost acts: seq<Action>)
      requires Valid() && !stop
      modifies this`h, this`handlers, this`closeCall, this`count, timer, demuxer`waitEvents, demuxer`pipe
      ensures Valid()
      ensures var s := old(Now(batch, Dispatching, Free, stopping));
              if IsIo(e.kind) then acts == [] && Now(batch, Dispatching, Free, stopping) == s
              else AttachedRun(DispatchResult(s, e), acts, Now(batch, Dispatching, Free, stopping))
    {
      hide AttachedRun, Apply, Enabled;
      NoStep(Now(batch, Dispatching, Free, stopping));
      acts := [];
      if IsIo(e.kind) || !e.data.Ptr? {
        return;
      }
      var x := e.data.handler;
      match e.kind {
        case RegisterRead =>
          count := count + 1;
          if e.io !in handlers {
            handlers := handlers[e.io := x];
          }
          h := h.(attached := h.attached + {x});
          acts := CallHandler(x, OnRegistered, batch, Dispatching, stopping);
        case RemoveAll =>
          if e.io !in handlers {
            return;
          }
          var _ := timer.RemoveTimeout(x);
          handlers := handlers - {e.io};
          closeCall := closeCall - {e.io};
          count := count - 1;
          acts := CallHandler(x, OnRemoved, batch, Dispatching, stopping);
        case _ =>
      }
    }

    /** The three dispatch functions, one after the other, for one event. */
    method DispatchOne(e: Event, now: nat, isStopEvent: bool, ghost rest: seq<Event>) returns (isStopEvent': bool, ghost acts: seq<Action>)
      requires Valid() && !stop
      modifies this`h, this`handlers, this`closeCall, this`count, timer, demuxer`waitEvents, demuxer`pipe
      ensures Valid()
      ensures AttachedRun(old(Now([e] + rest, Dispatching, Free, isStopEvent)), acts, Now(rest, Dispatching, Free, isStopEvent'))
    {
      ghost var s0 := Now([e] + rest, Dispatching, Free, isStopEvent);
      ghost var s1 := Now(rest, Dispatching, Free, isStopEvent);
      assert ([e] + rest)[1..] == rest;
      assert Apply(s0, DispatchNext(now)) == Dispatch(s1, e, now);
      assert AttachedRun(s0, [], s0);
      AttachedSnoc(s0, [], s0, DispatchNext(now));
      ghost var io, result;
      isStopEvent' := DispatchReactorEvent(e, now, isStopEvent);
      io := DispatchDemuxerEventIo(e, rest, isStopEvent');
      result := DispatchDemuxerEventResult(e, rest, isStopEvent');
      ghost var more := if IsIo(e.kind) then io else result;
      AttachedJoin(s0, [DispatchNext(now)], Dispatch(s1, e, now), more, Now(rest, Dispatching, Free, isStopEvent'));
      acts := [DispatchNext(now)] + more;
    }

    /** dispatch: every event of the batch, in order, even after a stop event.
        The clock is read anew for each. */
    method DispatchBatch(events: seq<Event>, now: nat) returns (isStopEvent: bool, ghost acts: seq<Action>)
      requires Valid() && !stop
      modifies this, timer, demuxer
      ensures Valid() && !stop
      ensures AttachedRun(old(Now(events, Dispatching, Free, false)), acts, Now([], Dispatching, Free, isStopEvent))
    {
      ghost var s0 := Now(events, Dispatching, Free, false);
      isStopEvent, acts := false, [];
      var clock := now;
      var i := 0;
      assert events[0..] == events;
      while i < |events|
        invariant 0 <= i <= |events|
        invariant Valid() && !stop
        invariant AttachedRun(s0, acts, Now(events[i..], Dispatching, Free, isStopEvent))
      {
        ghost var s := Now(events[i..], Dispatching, Free, isStopEvent);
        assert events[i..] == [events[i]] + events[i + 1..];
        ghost var more;
        clock := Tick(clock);
        isStopEvent, more := DispatchOne(events[i], clock, isStopEvent, events[i + 1..]);
        AttachedJoin(s0, acts, s, more, Now(events[i + 1..], Dispatching, Free, isStopEvent));
        acts := acts + more;
        i := i + 1;
      }
      assert events[i..] == [];
    }

    // ------------------------------------------------------------------- timeouts

    /** run_timeout_handler: what is due leaves the timer, and each handler that
        had a deadline there is called once, in the order of the deadlines. */
    method RunTimeoutHandler(start: nat) returns (later: nat, ghost due: seq<Handler>, ghost acts: seq<Action>)
      requires Valid() && !stop
      modifies this`h, timer, demuxer`waitEvents, demuxer`pipe
      ensures Valid() && !stop
      ensures AttachedRun(old(Now([], Idle, Free, false)), acts, Now([], Idle, Free, false))
      ensures start <= later && FirstOut(old(timer.Model()), timer.Model(), due, start, later)
      ensures h.calls == old(h.calls) + TimeoutCalls(due)
    {
      ghost var s0 := Now([], Idle, Free, false);
      ghost var m := timer.Model();
      ghost var ds, readings;
      var buckets;
      buckets, later, ds, readings := timer.ExtractTimeoutObjects(start);
      var out := Flatten(buckets, m, ds, readings);
      due := out;
      ExtractionIsFirstOut(m, timer.Model(), buckets, ds, readings, due, start, later);
      assert AttachedRun(s0, [], s0);
      assert Apply(s0, ExtractDue(due)) == Now([], Firing(due), Free, false);
      AttachedSnoc(s0, [], s0, ExtractDue(due));
      acts := FireAll(out, s0, [ExtractDue(due)]);
    }

    /** The calls of run_timeout_handler's two loops. */
    method FireAll(due: seq<Handler>, ghost s0: State, ghost before: seq<Action>) returns (ghost acts: seq<Action>)
      requires Valid() && !stop
      requires AttachedRun(s0, before, Now([], Firing(due), Free, false))
      modifies this`h, demuxer`waitEvents, demuxer`pipe
      ensures Valid() && !stop
      ensures AttachedRun(s0, acts, Now([], Idle, Free, false))
      ensures h.calls == old(h.calls) + TimeoutCalls(due)
    {
      hide AttachedRun, Apply, Enabled;
      acts := before;
      var i := 0;
      assert due[0..] == due;
      while i < |due|
        invariant 0 <= i <= |due|
        invariant Valid() && !stop
        invariant AttachedRun(s0, acts, Now([], Firing(due[i..]), Free, false))
        invariant h.calls == old(h.calls) + TimeoutCalls(due[..i])
      {
        ghost var s := Now([], Firing(due[i..]), Free, false);
        assert due[i..] == [due[i]] + due[i + 1..];
        ghost var more;
        more := FireOne(due[i], due[i + 1..]);
        AttachedJoin(s0, acts, s, more, Now([], Firing(due[i + 1..]), Free, false));
        acts := acts + more;
        assert TimeoutCalls(due[..i + 1]) == TimeoutCalls(due[..i]) + [Call(due[i], OnTimeout)];
        i := i + 1;
      }
      assert due[i..] == [] && due[..i] == due;
      FireDoneIs(Now([], Firing([]), Free, false));
      AttachedSnoc(s0, acts, Now([], Firing([]), Free, false), FireDone);
      acts := acts + [FireDone];
    }

    method FireOne(x: Handler, ghost rest: seq<Handler>) returns (ghost acts: seq<Action>)
      requires Valid() && !stop
      modifies this`h, demuxer`waitEvents, demuxer`pipe
      ensures Valid()
      ensures AttachedRun(old(Now([], Firing([x] + rest), Free, false)), acts, Now([], Firing(rest), Free, false))
      ensures h.calls == old(h.calls) + [Call(x, OnTimeout)]
    {
      ghost var s := Now([], Firing([x] + rest), Free, false);
      assert ([x] + rest)[1..] == rest;
      FireNextIs(s);
      OneStep(s, FireNext);
      hide AttachedRun, Apply, Enabled;
      acts := CallHandler(x, OnTimeout, [], Firing(rest), false);
      AttachedJoin(s, [FireNext], Apply(s, FireNext), acts, Now([], Firing(rest), Free, false));
      acts := [FireNext] + acts;
    }

    // ------------------------------------------------------------------- shutdown

    /** One walk over the hash map of handlers. */
    method ListHandlers() returns (order: seq<Handler>)
      requires forall io :: io in handlers ==> handlers[io].io == io
      ensures Lists(order, handlers)
    {
      order := [];
      var keys := handlers.Keys;
      while keys != {}
        invariant keys <= handlers.Keys
        invariant forall x :: x in order <==> x.io in handlers && x.io !in keys && handlers[x.io] == x
        invariant forall i, j :: 0 <= i < j < |order| ==> order[i] != order[j]
        decreases keys
      {
        var io :| io in keys;
        keys := keys - {io};
        assert handlers[io] !in order;
        order := order + [handlers[io]];
      }
    }

    /** run_shutdown */
    method RunShutdown() returns (ghost acts: seq<Action>)
      requires Valid() && !stop
      requires forall io :: io in handlers ==> handlers[io].io == io
      modifies this, timer, demuxer
      ensures Valid() && !stop
      ensures AttachedRun(old(Now([], Dispatching, Free, true)), acts, Now([], Stopped, Free, true))
    {
      ghost var s0 := Now([], Dispatching, Free, true);
      var order := ListHandlers();
      assert AttachedRun(s0, [], s0);
      AttachedSnoc(s0, [], s0, DispatchDone(order));
      acts := [DispatchDone(order)];
      var i := 0;
      assert order[0..] == order;
      while i < |order|
        invariant 0 <= i <= |order|
        invariant Valid() && !stop
        invariant AttachedRun(s0, acts, Now([], Shutting(order[i..]), Free, true))
      {
        ghost var s := Now([], Shutting(order[i..]), Free, true);
        ghost var more;
        assert order[i..][1..] == order[i + 1..];
        more := ShutdownOne(order[i], order[i + 1..]);
        AttachedSnoc(s0, acts, s, ShutdownNext);
        AttachedJoin(s0, acts + [ShutdownNext], Apply(s, ShutdownNext), more, Now([], Shutting(order[i + 1..]), Free, true));
        acts := acts + [ShutdownNext] + more;
        i := i + 1;
      }
      assert order[i..] == [];
      AttachedSnoc(s0, acts, Now([], Shutting([]), Free, true), ShutdownDone);
      acts := acts + [ShutdownDone];
    }

    /** One round of its loop: the timer entry goes, the handler is told, and its
        descriptor's interest is withdrawn. */
    method ShutdownOne(x: Handler, ghost left: seq<Handler>) returns (ghost acts: seq<Action>)
      requires Valid() && !stop
      modifies this`h, timer, demuxer`waitEvents, demuxer`pipe
      ensures Valid() && !stop
      ensures var s := old(Now([], Shutting(left), Free, true));
              AttachedRun(Invoke(s.(reg := s.reg.(timer := s.reg.timer - {x})), x, OnShutdown), acts, Now([], Shutting(left), Free, true))
    {
      var _ := timer.RemoveTimeout(x);
      ghost var s0 := Invoke(Now([], Shutting(left), Free, true), x, OnShutdown);
      acts := RunCallback(x, OnShutdown, [], Shutting(left), true);
      ghost var s := Now([], Shutting(left), Busy(Call(x, OnShutdown)), true);
      var _ := demuxer.RaiseEvent(RemoveStaleEvent(x.io), true);
      assert Now([], Shutting(left), Free, true) == Apply(s, Return);
      AttachedSnoc(s0, acts, s, Return);
      acts := acts + [Return];
    }

    // ------------------------------------------------------------------------ run

    /** One turn of run's endless loop: overdue timers are served until none is
        left, then comes the wait.  After `rounds` rounds of the inner loop control
        is handed back in the middle of it, at `later`; the next turn goes on. */
    method RunOnce(now: nat, rounds: nat) returns (stopped: bool, ghost later: nat, ghost acts: seq<Action>)
      requires Valid() && !stop
      requires Inv2(Now([], Idle, Free, false))
      modifies this, timer, demuxer
      ensures Valid()
      ensures stop == stopped
      ensures AttachedRun(old(Now([], Idle, Free, false)), acts, Now([], if stopped then Stopped else Idle, Free, stopped))
      ensures BeginWait in acts || (!stopped && now <= later && MinTimeout(timer.Model(), later) == 0)
      ensures Inv2(Now([], if stopped then Stopped else Idle, Free, stopped))
    {
      ghost var s0 := Now([], Idle, Free, false);
      acts := [];
      var clock := Tick(now);
      var left := rounds;
      var timeout := timer.GetMinTimeoutMilliseconds(clock);
      while timeout == 0 && left > 0
        invariant Valid() && !stop && now <= clock
        invariant AttachedRun(s0, acts, Now([], Idle, Free, false))
        invariant timeout == MinTimeout(timer.Model(), clock)
        decreases left
      {
        left := left - 1;
        ghost var s := Now([], Idle, Free, false);
        ghost var due, more;
        clock, due, more := RunTimeoutHandler(clock);
        AttachedJoin(s0, acts, s, more, Now([], Idle, Free, false));
        acts := acts + more;
        clock := Tick(clock);
        timeout := timer.GetMinTimeoutMilliseconds(clock);
      }
      later := clock;
      if timeout == 0 {
        stopped := false;
      } else {
        stopped, acts := WaitAndDispatch(clock, s0, acts);
      }
      AttachedKeepsInv2(s0, acts, Now([], if stopped then Stopped else Idle, Free, stopped));
    }

    /** The rest of the turn: wait, then the timers if nothing happened, or the
        batch, and the shutdown if there was a stop event in it. */
    method WaitAndDispatch(now: nat, ghost s0: State, ghost before: seq<Action>) returns (stopped: bool, ghost acts: seq<Action>)
      requires Valid() && !stop
      requires Inv2(s0) && AttachedRun(s0, before, Now([], Idle, Free, false))
      modifies this, timer, demuxer
      ensures Valid() && stop == stopped
      ensures AttachedRun(s0, acts, Now([], if stopped then Stopped else Idle, Free, stopped))
      ensures BeginWait in acts
    {
      ghost var s := Now([], Idle, Free, false);
      ghost var more;
      var events;
      acts := before;
      events, more := Wait(false);
      AttachedJoin(s0, acts, s, more, Now(events, Dispatching, Free, false));
      acts := acts + more;
      if |events| == 0 {
        assert events == [];
        AttachedSnoc(s0, acts, Now([], Dispatching, Free, false), DispatchDone([]));
        acts := acts + [DispatchDone([])];
        s := Now([], Idle, Free, false);
        var later;
        ghost var due;
        later, due, more := RunTimeoutHandler(now);
        AttachedJoin(s0, acts, s, more, Now([], Idle, Free, false));
        acts := acts + more;
        return false, acts;
      }
      s := Now(events, Dispatching, Free, false);
      stopped, more := DispatchBatch(events, now);
      AttachedJoin(s0, acts, s, more, Now([], Dispatching, Free, stopped));
      acts := acts + more;
      s := Now([], Dispatching, Free, stopped);
      if !stopped {
        AttachedSnoc(s0, acts, s, DispatchDone([]));
        acts := acts + [DispatchDone([])];
        return;
      }
      AttachedKeepsInv2(s0, acts, s);
      more := RunShutdown();
      AttachedJoin(s0, acts, s, more, Now([], Stopped, Free, true));
      acts := acts + more;
      stop := true;
    }
  }
}
