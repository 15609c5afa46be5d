/** What each callback comes from, over every run: readiness the kernel reported, a
    call of the public interface, a timeout taken out, or the shutdown. */
module Calls {
  import opened Events
  import opened Demuxer
  import opened Machine
  import opened Lifecycle

  // -------------------------------------------------------------- one call, one cause

  /** The event at the head of the batch is dispatched. */
  predicate Dispatches(s: State, a: Action, e: Event) {
    a.DispatchNext? && s.q.batch != [] && s.q.batch[0] == e
  }

  /** What brings each of the eight calls about. */
  predicate Causes(s: State, a: Action, c: Call) {
    var io := c.x.io;
    match c.cb
    case OnInput => Known(s, c.x) && Dispatches(s, a, Event(Read, io, Null, true))
    case OnOutput => Known(s, c.x) && Dispatches(s, a, Event(Write, io, Null, true))
    case OnError => Known(s, c.x) && Dispatches(s, a, Event(Error, io, Null, true))
    case OnClose => Known(s, c.x) && Dispatches(s, a, Event(Close, io, Null, true)) && io !in s.reg.closeCall
    case OnRegistered => Dispatches(s, a, Event(RegisterRead, io, Ptr(c.x), true))
    case OnRemoved => Known(s, c.x) && Dispatches(s, a, Event(RemoveAll, io, Ptr(c.x), true))
    case OnTimeout => a.FireNext? && s.phase.Firing? && s.phase.due != [] && s.phase.due[0] == c.x
    case OnShutdown => a.ShutdownNext? && s.phase.Shutting? && s.phase.left != [] && s.phase.left[0] == c.x
  }

  /** The step makes this call. */
  ghost predicate Makes(s: State, a: Action, c: Call)
    requires Enabled(s, a)
  {
    Apply(s, a).h.calls == s.h.calls + [c]
  }

  lemma PlusIs(calls: seq<Call>, added: seq<Call>, c: Call)
    ensures calls + added == calls + [c] <==> added == [c]
    ensures calls + added == calls <==> added == []
  {
    if calls + added == calls + [c] {
      assert added == (calls + added)[|calls|..] == (calls + [c])[|calls|..] == [c];
    }
    if calls + added == calls {
      assert |added| == 0;
    }
  }

  /** What dispatching one event adds to the calls. */
  lemma IoAdds(s: State, e: Event) returns (added: seq<Call>)
    requires TablesOk(s.reg, s.h.owner) && IsIo(e.kind) && e == Event(e.kind, e.io, Null, true)
    ensures DispatchIo(s, e).h.calls == s.h.calls + added
    ensures if e.io !in s.reg.handlers || (e.kind.Close? && e.io in s.reg.closeCall) then added == []
            else
              var x := s.reg.handlers[e.io];
              && x.io == e.io
              && added == [Call(x, match e.kind case Read => OnInput case Write => OnOutput case Error => OnError case _ => OnClose)]
  {
    if e.io !in s.reg.handlers || (e.kind.Close? && e.io in s.reg.closeCall) {
      added := [];
    } else {
      var x := s.reg.handlers[e.io];
      added := [Call(x, if e.kind.Read? then OnInput else if e.kind.Write? then OnOutput else if e.kind.Error? then OnError else OnClose)];
    }
  }

  lemma UserAdds(s: State, e: Event, now: nat)
    requires IsUser(e.kind) && !e.data.Ptr?
    ensures Dispatch(s, e, now).h.calls == s.h.calls
  {
  }

  lemma ResultAdds(s: State, e: Event) returns (added: seq<Call>)
    requires TablesOk(s.reg, s.h.owner) && WfEvent(e, s.h.owner) && !IsIo(e.kind) && !IsUser(e.kind)
    ensures DispatchResult(s, e).h.calls == s.h.calls + added
    ensures if e.kind.RegisterRead? then added == [Call(s.h.owner[e.io], OnRegistered)]
            else if e.kind.RemoveAll? && e.ret && e.io in s.reg.handlers then added == [Call(s.h.owner[e.io], OnRemoved)]
            else added == []
  {
    if e.kind.RegisterRead? {
      added := [Call(s.h.owner[e.io], OnRegistered)];
    } else if e.kind.RemoveAll? && e.ret && e.io in s.reg.handlers {
      added := [Call(s.h.owner[e.io], OnRemoved)];
    } else {
      added := [];
    }
  }

  /** Every call has its cause, and every cause its call. */
  lemma DispatchCallIff(s: State, a: Action, c: Call)
    requires Inv(s) && Enabled(s, a) && a.DispatchNext?
    ensures Makes(s, a, c) <==> Causes(s, a, c)
    ensures Apply(s, a).h.calls == s.h.calls || exists d :: Makes(s, a, d)
  {
    hide DispatchIo, DispatchResult, DispatchUser, RegisterOnce, LivesOk, PhaseOk, FlowWf, TablesOk;
    var e, s1 := s.q.batch[0], s.(q := s.q.(batch := s.q.batch[1..]));
    HeadWf(s);
    var added := [];
    if IsUser(e.kind) {
      UserAdds(s1, e, a.now);
      assert s.h.calls + added == s.h.calls;
    } else if IsIo(e.kind) {
      added := IoAdds(s1, e);
    } else {
      added := ResultAdds(s1, e);
    }
    OwnerIs(s, e.io);
    PlusIs(s.h.calls, added, c);
    if added != [] { assert added == [added[0]] && Makes(s, a, added[0]); }
  }

  lemma HeadWf(s: State)
    requires FlowWf(s) && s.q.batch != []
    ensures WfEvent(s.q.batch[0], s.h.owner)
  {
    NumIn(s.q.batch, s.q.batch[0]);
    assert Flow(s, s.q.batch[0]) > 0;
  }

  lemma OwnerIs(s: State, io: Fd)
    requires TablesOk(s.reg, s.h.owner)
    ensures io in s.h.owner ==> s.h.owner[io].io == io
    ensures io in s.reg.handlers ==> s.reg.handlers[io].io == io && io in s.h.owner && s.h.owner[io] == s.reg.handlers[io]
  {
  }

  lemma OtherAdds(s: State, a: Action) returns (added: seq<Call>)
    requires Enabled(s, a) && !a.DispatchNext?
    ensures Apply(s, a).h.calls == s.h.calls + added
    ensures added == if a.FireNext? then [Call(s.phase.due[0], OnTimeout)] else if a.ShutdownNext? then [Call(s.phase.left[0], OnShutdown)] else []
  {
    hide Process, ProcessRefused, EventOf, Emit, Dispatch;
    added := if a.FireNext? then [Call(s.phase.due[0], OnTimeout)] else if a.ShutdownNext? then [Call(s.phase.left[0], OnShutdown)] else [];
    assert s.h.calls + [] == s.h.calls;
  }

  lemma OtherCallIff(s: State, a: Action, c: Call)
    requires Enabled(s, a) && !a.DispatchNext?
    ensures Makes(s, a, c) <==> Causes(s, a, c)
    ensures Apply(s, a).h.calls == s.h.calls || exists d :: Makes(s, a, d)
  {
    hide Apply;
    var added := OtherAdds(s, a);
    PlusIs(s.h.calls, added, c);
    if added != [] { assert added == [added[0]] && Makes(s, a, added[0]); }
  }

  /** Every call has its cause, every cause its call, and no step makes two. */
  lemma CallIff(s: State, a: Action, c: Call)
    requires Inv(s) && Enabled(s, a)
    ensures Makes(s, a, c) <==> Causes(s, a, c)
    ensures Apply(s, a).h.calls == s.h.calls || exists d :: Makes(s, a, d)
  {
    hide Makes, Causes, Apply, Inv, Enabled;
    if a.DispatchNext? { DispatchCallIff(s, a, c); } else { OtherCallIff(s, a, c); }
  }

  // --------------------------------------------------------- readiness is conserved

  function ReadyEvent(k: Kind, io: Fd): Event {
    Event(k, io, Null, true)
  }

  /** What epoll_wait has said of a descriptor: EPOLLIN with a byte there, EPOLLOUT
      without an error, an error, or either hang-up. */
  predicate Says(r: Ready, k: Kind, io: Fd) {
    && r.Io? && r.io == io
    && (match k case Read => r.rd case Write => r.wr && !r.er case Error => r.er case Close => r.hup case _ => false)
  }

  function SaidIn(ready: seq<Ready>, k: Kind, io: Fd): nat {
    if ready == [] then 0 else One(Says(ready[0], k, io)) + SaidIn(ready[1..], k, io)
  }

  /** How often a run's epoll_wait calls have said so. */
  function Reported(acts: seq<Action>, k: Kind, io: Fd): nat {
    if acts == [] then 0 else (if acts[0].Poll? then SaidIn(acts[0].ready, k, io) else 0) + Reported(acts[1..], k, io)
  }

  /** How often handlers of a descriptor have had a call. */
  function CallsFor(calls: seq<Call>, cb: Callback, io: Fd): nat {
    if calls == [] then 0
    else
      var c := calls[|calls| - 1];
      CallsFor(calls[..|calls| - 1], cb, io) + One(c.cb == cb && c.x.io == io)
  }

  /** Nobody is there to be told, or he has been told already. */
  predicate Unheard(s: State, k: Kind, io: Fd) {
    io !in s.reg.handlers || (k.Close? && io in s.reg.closeCall)
  }

  ghost function UnheardIn(s: State, acts: seq<Action>, k: Kind, io: Fd): nat
    decreases |acts|
  {
    if acts == [] || !Enabled(s, acts[0]) then 0
    else One(Dispatches(s, acts[0], ReadyEvent(k, io)) && Unheard(s, k, io)) + UnheardIn(Apply(s, acts[0]), acts[1..], k, io)
  }

  /** The call each kind of readiness is answered with. */
  predicate Answers(k: Kind, cb: Callback) {
    || (k.Read? && cb.OnInput?) || (k.Write? && cb.OnOutput?)
    || (k.Error? && cb.OnError?) || (k.Close? && cb.OnClose?)
  }

  /** The batch is empty before the reactor waits. */
  predicate BatchOk(s: State) {
    s.phase.Idle? || s.phase.Firing? ==> s.q.batch == []
  }

  lemma StepBatch(s: State, a: Action)
    requires BatchOk(s) && Enabled(s, a)
    ensures BatchOk(Apply(s, a))
  {
    if a.DispatchNext? { DispatchQueues(s.(q := s.q.(batch := s.q.batch[1..])), s.q.batch[0], a.now); }
  }

  lemma EmitSays(r: Ready, k: Kind, io: Fd)
    requires IsIo(k)
    ensures Num(Emit(r), ReadyEvent(k, io)) == One(Says(r, k, io))
  {
  }

  lemma {:induction false} EmitAllSays(ready: seq<Ready>, k: Kind, io: Fd)
    requires IsIo(k)
    ensures Num(EmitAll(ready), ReadyEvent(k, io)) == SaidIn(ready, k, io)
  {
    hide Num, Emit, Says;
    if ready == [] {
      NumNone(ReadyEvent(k, io));
    } else {
      EmitSays(ready[0], k, io);
      EmitAllSays(ready[1..], k, io);
      NumJoin(Emit(ready[0]), EmitAll(ready[1..]), ReadyEvent(k, io));
    }
  }

  /** What a public call posts, and where: the queue of the reactor thread, or the
      pipe from any other; only the invalid handle is refused. */
  lemma CallPosts(s: State, a: Action)
    requires Enabled(s, a) && a.ApiCall?
    ensures var q, q' := s.q, Apply(s, a).q;
            var e := match a.a
              case Register(x) => Event(RegisterRead, x.io, Ptr(x), true)
              case Remove(x) => Event(RemoveAll, x.io, Ptr(x), true)
              case Writable(x) => Event(RegisterWrite, x.io, Ptr(x), false)
              case SetTimeout(x, msec) => Event(TimeoutAdd, x.io, Msec(msec), true)
              case UnsetTimeout(x) => Event(TimeoutDel, x.io, Null, true)
              case StopRun => Event(Stop, -1, Null, true);
            var more := if e.io == -1 && (a.a.Register? || a.a.Remove? || a.a.Writable?) then [] else [e];
            q' == if a.onReactor then q.(waitq := q.waitq + more) else q.(pipe := q.pipe + more)
  {
    assert s.q.waitq + [] == s.q.waitq && s.q.pipe + [] == s.q.pipe;
  }

  /** READ before WRITE before ERROR before CLOSE. */
  function Rank(k: Kind): nat {
    match k
    case Read => 0
    case Write => 1
    case Error => 2
    case _ => 3
  }

  lemma EmitInOrder(r: Ready)
    ensures forall i, j :: 0 <= i < j < |Emit(r)| ==> Rank(Emit(r)[i].kind) < Rank(Emit(r)[j].kind)
  {
  }

  /** An event that is handed back stays on its way until it is dispatched. */
  lemma StaysUntilDispatched(s: State, a: Action, e: Event)
    requires BatchOk(s) && Enabled(s, a) && e.ret
    ensures Flow(Apply(s, a), e) >= Flow(s, e) - One(Dispatches(s, a, e))
  {
    hide Flow, Apply, Raised, EmitAll;
    FlowStep(s, a, e);
    NumNone(e);
  }

  /** Readiness comes from the kernel and goes to the dispatcher, and by no other way. */
  lemma ReadyFlow(s: State, a: Action, k: Kind, io: Fd)
    requires BatchOk(s) && Enabled(s, a) && IsIo(k)
    ensures Flow(Apply(s, a), ReadyEvent(k, io))
         == Flow(s, ReadyEvent(k, io)) + (if a.Poll? then SaidIn(a.ready, k, io) else 0) - One(Dispatches(s, a, ReadyEvent(k, io)))
  {
    hide Flow, Apply, EmitAll, Num, SaidIn;
    var e := ReadyEvent(k, io);
    FlowStep(s, a, e);
    NumNone(e);
    if a.Poll? { EmitAllSays(a.ready, k, io); }
    if a.DispatchNext? { RaisedIsNoReadyEvent(s, s.q.batch[0], e); }
  }

  lemma RaisedIsNoReadyEvent(s: State, c: Event, e: Event)
    requires IsIo(e.kind)
    ensures Num(Raised(s, c), e) == 0
  {
    NumIn(Raised(s, c), e);
  }

  lemma CallsForSnoc(calls: seq<Call>, c: Call, cb: Callback, io: Fd)
    ensures CallsFor(calls + [c], cb, io) == CallsFor(calls, cb, io) + One(c.cb == cb && c.x.io == io)
  {
    assert (calls + [c])[..|calls|] == calls;
  }

  /** Each one dispatched is answered by a call, or unheard. */
  lemma ReadyAnswered(s: State, a: Action, k: Kind, cb: Callback, io: Fd)
    requires Inv(s) && Enabled(s, a) && Answers(k, cb)
    ensures CallsFor(Apply(s, a).h.calls, cb, io)
         == CallsFor(s.h.calls, cb, io) + One(Dispatches(s, a, ReadyEvent(k, io)) && !Unheard(s, k, io))
  {
    hide Apply, Enabled, LivesOk, FlowWf, RegisterOnce, PhaseOk, CallsFor, TablesOk;
    OwnerIs(s, io);
    if Dispatches(s, a, ReadyEvent(k, io)) && !Unheard(s, k, io) {
      var c := Call(s.reg.handlers[io], cb);
      CallIff(s, a, c);
      CallsForSnoc(s.h.calls, c, cb, io);
    } else {
      CallIff(s, a, Call(Handler(0, io), cb));
      if c :| Makes(s, a, c) {
        CallIff(s, a, c);
        CallsForSnoc(s.h.calls, c, cb, io);
      }
    }
  }

  lemma {:induction false} RunConserves(s: State, acts: seq<Action>, s': State, k: Kind, cb: Callback, io: Fd)
    requires Inv(s) && BatchOk(s) && FreshRun(s, acts, s') && Answers(k, cb)
    ensures Flow(s, ReadyEvent(k, io)) + CallsFor(s.h.calls, cb, io) + Reported(acts, k, io)
         == Flow(s', ReadyEvent(k, io)) + CallsFor(s'.h.calls, cb, io) + UnheardIn(s, acts, k, io)
    decreases |acts|
  {
    hide Inv, BatchOk, Flow, Apply, Enabled, Fresh, CallsFor, SaidIn, Unheard, Dispatches;
    if acts != [] {
      var a := acts[0];
      StepKeepsInv(s, a);
      StepBatch(s, a);
      ReadyFlow(s, a, k, io);
      ReadyAnswered(s, a, k, cb, io);
      RunConserves(Apply(s, a), acts[1..], s', k, cb, io);
    }
  }

  lemma NothingFlows(e: Event)
    ensures Flow(START, e) == 0
  {
    NumNone(e);
  }

  /** Over every run: of what the kernel has reported of a descriptor, each READ is
      still on its way, or was one handle_input, or met no handler; likewise WRITE and
      handle_output, ERROR and handle_error, and CLOSE and handle_close, which may
      also have met a handler that had been told. */
  lemma ReadinessConserved(acts: seq<Action>, s: State, io: Fd)
    requires FreshRun(START, acts, s)
    ensures Reported(acts, Read, io) == Flow(s, Event(Read, io, Null, true)) + CallsFor(s.h.calls, OnInput, io) + UnheardIn(START, acts, Read, io)
    ensures Reported(acts, Write, io) == Flow(s, Event(Write, io, Null, true)) + CallsFor(s.h.calls, OnOutput, io) + UnheardIn(START, acts, Write, io)
    ensures Reported(acts, Error, io) == Flow(s, Event(Error, io, Null, true)) + CallsFor(s.h.calls, OnError, io) + UnheardIn(START, acts, Error, io)
    ensures Reported(acts, Close, io) == Flow(s, Event(Close, io, Null, true)) + CallsFor(s.h.calls, OnClose, io) + UnheardIn(START, acts, Close, io)
  {
    hide FreshRun, Flow, Reported, UnheardIn, Inv;
    StartInv();
    NothingFlows(ReadyEvent(Read, io));
    NothingFlows(ReadyEvent(Write, io));
    NothingFlows(ReadyEvent(Error, io));
    NothingFlows(ReadyEvent(Close, io));
    RunConserves(START, acts, s, Read, OnInput, io);
    RunConserves(START, acts, s, Write, OnOutput, io);
    RunConserves(START, acts, s, Error, OnError, io);
    RunConserves(START, acts, s, Close, OnClose, io);
  }

  // ------------------------------------------------------- no call out of nowhere

  lemma {:induction false} SaidSomewhere(ready: seq<Ready>, k: Kind, io: Fd)
    requires SaidIn(ready, k, io) > 0
    ensures exists j :: 0 <= j < |ready| && Says(ready[j], k, io)
  {
    if Says(ready[0], k, io) {
    } else {
      SaidSomewhere(ready[1..], k, io);
      var j :| 0 <= j < |ready[1..]| && Says(ready[1..][j], k, io);
      assert ready[j + 1] == ready[1..][j];
    }
  }

  /** Some epoll_wait of the run has said so. */
  predicate SaidBy(a: Action, k: Kind, io: Fd) {
    a.Poll? && exists j :: 0 <= j < |a.ready| && Says(a.ready[j], k, io)
  }

  lemma {:induction false} ReportedSomewhere(acts: seq<Action>, k: Kind, io: Fd)
    requires Reported(acts, k, io) > 0
    ensures exists i :: 0 <= i < |acts| && SaidBy(acts[i], k, io)
  {
    if acts[0].Poll? && SaidIn(acts[0].ready, k, io) > 0 {
      SaidSomewhere(acts[0].ready, k, io);
      assert SaidBy(acts[0], k, io);
    } else {
      ReportedSomewhere(acts[1..], k, io);
      var i :| 0 <= i < |acts[1..]| && SaidBy(acts[1..][i], k, io);
      assert acts[i + 1] == acts[1..][i];
    }
  }

  lemma {:induction false} CallsForAtLeast(calls: seq<Call>, c: Call)
    requires c in calls
    ensures CallsFor(calls, c.cb, c.x.io) > 0
  {
    var n := |calls| - 1;
    if calls[n] != c {
      assert c in calls[..n];
      CallsForAtLeast(calls[..n], c);
    }
  }

  /** A handle_input, handle_output, handle_error or handle_close has been reported by
      the kernel, of that handler's descriptor and in so many words. */
  lemma CalledWasReported(acts: seq<Action>, s: State, x: Handler, k: Kind, cb: Callback)
    requires FreshRun(START, acts, s) && Answers(k, cb) && Call(x, cb) in s.h.calls
    ensures exists i :: 0 <= i < |acts| && SaidBy(acts[i], k, x.io)
  {
    hide FreshRun, Flow, Reported, UnheardIn, SaidBy, CallsFor;
    ReadinessConserved(acts, s, x.io);
    CallsForAtLeast(s.h.calls, Call(x, cb));
    ReportedSomewhere(acts, k, x.io);
  }

  // -------------------------------------------------- no readiness without its call

  /** x is registered in every state the run goes through before its last. */
  ghost predicate KnownThroughout(s: State, acts: seq<Action>, x: Handler)
    decreases |acts|
  {
    acts == [] || (Known(s, x) && (Enabled(s, acts[0]) ==> KnownThroughout(Apply(s, acts[0]), acts[1..], x)))
  }

  /** The call, made after the first n. */
  predicate CalledSince(calls: seq<Call>, n: nat, c: Call) {
    exists i :: n <= i < |calls| && calls[i] == c
  }

  lemma CallsOnlyGrow(s: State, a: Action)
    requires Inv(s) && Enabled(s, a)
    ensures s.h.calls <= Apply(s, a).h.calls
  {
    hide Inv, Apply, Enabled;
    CallIff(s, a, Call(Handler(0, 0), OnInput));
  }

  /** One step: what is on its way stays so, or is answered now. */
  lemma ReadyStep(s: State, a: Action, x: Handler, k: Kind, cb: Callback)
    requires Inv(s) && BatchOk(s) && Enabled(s, a) && Known(s, x) && Answers(k, cb)
    requires Flow(s, ReadyEvent(k, x.io)) > 0
    ensures Flow(Apply(s, a), ReadyEvent(k, x.io)) > 0 || Makes(s, a, Call(x, cb)) || (k.Close? && Call(x, OnClose) in s.h.calls)
  {
    hide Inv, Flow, Apply, Enabled, BatchOk;
    ReadyFlow(s, a, k, x.io);
    if Dispatches(s, a, ReadyEvent(k, x.io)) {
      CallIff(s, a, Call(x, cb));
      if k.Close? && x.io in s.reg.closeCall { ToldBefore(s, a, x); }
    }
  }

  lemma ToldBefore(s: State, a: Action, x: Handler)
    requires Inv(s) && Enabled(s, a) && a.DispatchNext? && Known(s, x) && x.io in s.reg.closeCall
    ensures Call(x, OnClose) in s.h.calls
  {
    hide FlowWf, RegisterOnce, PhaseOk, TablesOk, LifeOf;
    assert LifeOk(s, x);
    LifeClosed(s.h.calls, x);
  }

  /** As long as x stays registered, what the kernel has reported of its descriptor
      stays on its way until x is called for it: handle_input for READ, handle_output
      for WRITE, handle_error for ERROR, and handle_close, once, for CLOSE. */
  lemma {:induction false} ReadyUntilCalled(s: State, acts: seq<Action>, s': State, x: Handler, k: Kind, cb: Callback)
    requires Inv(s) && BatchOk(s) && FreshRun(s, acts, s') && KnownThroughout(s, acts, x) && Answers(k, cb)
    requires Flow(s, ReadyEvent(k, x.io)) > 0
    ensures || Flow(s', ReadyEvent(k, x.io)) > 0
            || CalledSince(s'.h.calls, if k.Close? then 0 else |s.h.calls|, Call(x, cb))
    decreases |acts|
  {
    hide Inv, BatchOk, Flow, Apply, Enabled, Fresh, Known;
    if acts != [] {
      var a, s1 := acts[0], Apply(s, acts[0]);
      StepKeepsInv(s, a);
      StepBatch(s, a);
      CallsOnlyGrow(s, a);
      RunCallsGrow(s1, acts[1..], s');
      ReadyStep(s, a, x, k, cb);
      if Makes(s, a, Call(x, cb)) {
        assert s'.h.calls[|s.h.calls|] == s1.h.calls[|s.h.calls|] == Call(x, cb);
      } else if Flow(s1, ReadyEvent(k, x.io)) > 0 {
        ReadyUntilCalled(s1, acts[1..], s', x, k, cb);
      } else {
        var i :| 0 <= i < |s.h.calls| && s.h.calls[i] == Call(x, OnClose);
        assert s'.h.calls[i] == s1.h.calls[i] == s.h.calls[i];
      }
    }
  }

  lemma {:induction false} RunCallsGrow(s: State, acts: seq<Action>, s': State)
    requires Inv(s) && FreshRun(s, acts, s')
    ensures s.h.calls <= s'.h.calls
    decreases |acts|
  {
    hide Inv, Apply, Enabled, Fresh;
    if acts != [] {
      StepKeepsInv(s, acts[0]);
      CallsOnlyGrow(s, acts[0]);
      RunCallsGrow(Apply(s, acts[0]), acts[1..], s');
    }
  }
}
