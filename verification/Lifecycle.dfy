/** What a handler sees of the reactor, over every run: it is registered first,
    then called back, told of a hang-up at most once, and removed (or shut down)
    at most once with nothing after it. */
module Lifecycle {
  import opened Events
  import opened Demuxer
  import opened Machine

  // -------------------------------------------------- the life of one handler

  datatype Life = New | Live | Closed | Gone | Bad

  function LifeStep(l: Life, cb: Callback): Life {
    match cb
    case OnRegistered => if l.New? then Live else Bad
    case OnInput => if l.Live? || l.Closed? then l else Bad
    case OnOutput => if l.Live? || l.Closed? then l else Bad
    case OnError => if l.Live? || l.Closed? then l else Bad
    case OnTimeout => if l.Live? || l.Closed? then l else Bad
    case OnClose => if l.Live? then Closed else Bad
    case OnRemoved => if l.Live? || l.Closed? then Gone else Bad
    case OnShutdown => if l.Live? || l.Closed? then Gone else Bad
  }

  /** Where the calls made so far have brought a handler. */
  function LifeOf(calls: seq<Call>, x: Handler): Life {
    if calls == [] then New
    else
      var l := LifeOf(calls[..|calls| - 1], x);
      var c := calls[|calls| - 1];
      if c.x == x then LifeStep(l, c.cb) else l
  }

  lemma LifeLast(calls: seq<Call>, c: Call, x: Handler)
    ensures LifeOf(calls + [c], x) == if c.x == x then LifeStep(LifeOf(calls, x), c.cb) else LifeOf(calls, x)
  {
    assert (calls + [c])[..|calls|] == calls;
  }

  // ------------------------------------------------------------- the invariant

  /** The events the reactor ever puts in flight, and whom they are about. */
  ghost predicate WfEvent(e: Event, owner: map<Fd, Handler>) {
    match e.kind
    case RegisterRead => e.io in owner && e == EventOf(Register(owner[e.io]))
    case RegisterWrite => e.io in owner && e == EventOf(Writable(owner[e.io]))
    case RemoveAll => if e.ret then e.io in owner && e == EventOf(Remove(owner[e.io])) else e == RemoveStaleEvent(e.io)
    case RemoveWrite => e == RemoveWriteEvent(e.io)
    case TimeoutAdd => e.data.Msec? && e.ret
    case TimeoutDel => e.data.Null? && e.ret
    case Stop => e == EventOf(StopRun)
    case RegisterAll => false
    case RegisterError => false
    case RemoveRead => false
    case RemoveError => false
    case _ => e == Event(e.kind, e.io, Null, true)
  }

  ghost predicate FlowWf(s: State) {
    forall e :: Flow(s, e) > 0 ==> WfEvent(e, s.h.owner)
  }

  predicate Known(s: State, x: Handler) {
    x.io in s.reg.handlers && s.reg.handlers[x.io] == x
  }

  /** run_shutdown has already called this handler. */
  predicate Down(s: State, x: Handler) {
    s.phase.Stopped? || (s.phase.Shutting? && x !in s.phase.left)
  }

  /** The reactor's tables agree with each other. */
  ghost predicate TablesOk(reg: Registry, owner: map<Fd, Handler>) {
    && (forall io :: io in reg.handlers ==> reg.handlers[io].io == io && io in owner && owner[io] == reg.handlers[io])
    && (forall io :: io in owner ==> owner[io].io == io)
    && reg.closeCall <= reg.handlers.Keys
    && (forall x :: x in reg.timer ==> x.io in reg.handlers && reg.handlers[x.io] == x)
    && reg.count == |reg.handlers|
  }

  /** A registration still in flight is the only one for its handler, whose life
      has not begun. */
  ghost predicate RegisterOnce(s: State) {
    forall x :: var n := Flow(s, EventOf(Register(x)));
      n <= 1 && (n > 0 ==> LifeOf(s.h.calls, x) == New && x.io !in s.reg.handlers)
  }

  ghost predicate LivesOk(s: State) {
    forall x :: LifeOk(s, x)
  }

  ghost predicate LifeOk(s: State, x: Handler) {
    var l := LifeOf(s.h.calls, x);
    && (if Known(s, x) then l == (if Down(s, x) then Gone else if x.io in s.reg.closeCall then Closed else Live)
        else l == New || l == Gone)
    && (x in s.h.attached <==> l != New)
  }

  ghost predicate PhaseOk(s: State) {
    && (s.phase.Firing? ==> forall x :: x in s.phase.due ==> Known(s, x))
    && (s.phase.Shutting? ==>
          && (forall x :: x in s.phase.left ==> Known(s, x))
          && (forall i, j :: 0 <= i < j < |s.phase.left| ==> s.phase.left[i] != s.phase.left[j]))
  }

  ghost predicate Inv(s: State) {
    FlowWf(s) && TablesOk(s.reg, s.h.owner) && RegisterOnce(s) && LivesOk(s) && PhaseOk(s)
  }

  // --------------------------------------------------- steps keep the invariant

  /** Steps that make no callback and leave the dispatcher's tables alone. */
  lemma Quiet(s: State, s': State)
    requires Inv(s)
    requires s'.reg == s.reg && s'.h.(refused := s.h.refused) == s.h
    requires s'.phase == s.phase || !(s.phase.Shutting? || s.phase.Stopped? || s'.phase.Shutting? || s'.phase.Stopped? || s'.phase.Firing?)
    requires forall e :: Flow(s', e) > 0 ==> Flow(s, e) > 0 || (WfEvent(e, s.h.owner) && !e.kind.RegisterRead?)
    requires forall x :: Flow(s', EventOf(Register(x))) <= Flow(s, EventOf(Register(x)))
    ensures Inv(s')
  {
    forall x
      ensures LifeOk(s', x)
    {
      assert LifeOk(s, x);
    }
  }

  lemma {:induction false} EmitAllIo(ready: seq<Ready>, e: Event)
    requires Num(EmitAll(ready), e) > 0
    ensures IsIo(e.kind) && e == Event(e.kind, e.io, Null, true)
  {
    NumJoin(Emit(ready[0]), EmitAll(ready[1..]), e);
    if Num(EmitAll(ready[1..]), e) > 0 {
      EmitAllIo(ready[1..], e);
    } else {
      NumIn(Emit(ready[0]), e);
      EmitPlain(ready[0], e);
    }
  }

  lemma EmitPlain(r: Ready, e: Event)
    requires e in Emit(r)
    ensures IsIo(e.kind) && e == Event(e.kind, e.io, Null, true)
  {
  }

  /** Steps that make no callback and leave the dispatcher's tables alone. */
  predicate IsQuiet(s: State, a: Action) {
    && !a.DispatchNext? && !a.FireNext? && !a.ShutdownNext? && !a.ShutdownDone? && !a.ExtractDue?
    && (a.ApiCall? ==> !a.a.Register?)
    && (a.DispatchDone? ==> !s.reg.stopping)
  }

  lemma QuietFrame(s: State, a: Action)
    requires Enabled(s, a) && IsQuiet(s, a)
    ensures var s' := Apply(s, a);
            && s'.reg == s.reg && s'.h.(refused := s.h.refused) == s.h
            && (s'.phase == s.phase || !(s.phase.Shutting? || s.phase.Stopped? || s'.phase.Shutting? || s'.phase.Stopped? || s'.phase.Firing?))
  {
  }

  lemma QuietFlow(s: State, a: Action, e: Event)
    requires FlowWf(s) && Enabled(s, a) && Fresh(s, a) && IsQuiet(s, a)
    ensures Flow(Apply(s, a), e) > 0 ==> Flow(s, e) > 0 || (WfEvent(e, s.h.owner) && !e.kind.RegisterRead?)
    ensures e.kind.RegisterRead? ==> Flow(Apply(s, a), e) <= Flow(s, e)
  {
    hide Apply, Enabled, Flow, Num, EmitAll, Raised, FreshCall, Emit;
    FlowStep(s, a, e);
    if a.Poll? && Num(EmitAll(a.ready), e) > 0 {
      EmitAllIo(a.ready, e);
    }
    if a.ApiCall? {
      CallWf(s, a.a);
    }
  }

  /** What a call other than a registration puts in flight. */
  lemma CallWf(s: State, api: Api)
    requires FreshCall(s, api) && !api.Register?
    ensures WfEvent(EventOf(api), s.h.owner) && !EventOf(api).kind.RegisterRead?
  {
  }

  lemma StepQuiet(s: State, a: Action)
    requires Inv(s) && Enabled(s, a) && Fresh(s, a) && IsQuiet(s, a)
    ensures Inv(Apply(s, a))
  {
    var s' := Apply(s, a);
    QuietFrame(s, a);
    forall e
      ensures Flow(s', e) > 0 ==> Flow(s, e) > 0 || (WfEvent(e, s.h.owner) && !e.kind.RegisterRead?)
      ensures e.kind.RegisterRead? ==> Flow(s', e) <= Flow(s, e)
    {
      QuietFlow(s, a, e);
    }
    Quiet(s, s');
  }

  /** The events that name the owner of their descriptor. */
  predicate NamesOwner(e: Event) {
    e.kind.RegisterRead? || e.kind.RegisterWrite? || (e.kind.RemoveAll? && e.ret)
  }

  /** None of them is on its way when a descriptor is registered. */
  lemma NobodyNamed(s: State, x: Handler, e: Event)
    requires FlowWf(s) && FreshCall(s, Register(x))
    requires e.io == x.io && NamesOwner(e)
    ensures Flow(s, e) == 0
  {
    if Flow(s, e) > 0 {
      assert WfEvent(e, s.h.owner);
    }
  }

  /** register_event_handler, for a descriptor not in use. */
  lemma RegisterLives(s: State, s': State, x: Handler)
    requires LivesOk(s) && x !in s.h.attached
    requires s' == s.(q := s'.q, h := s.h.(owner := s.h.owner[x.io := x]))
    ensures LivesOk(s') && LifeOf(s.h.calls, x) == New
  {
    assert LifeOk(s, x);
    forall y
      ensures LifeOk(s', y)
    {
      assert LifeOk(s, y);
    }
  }

  lemma {:induction false} RegisterFlow(s: State, s': State, x: Handler)
    requires FlowWf(s) && RegisterOnce(s) && LifeOf(s.h.calls, x) == New
    requires FreshCall(s, Register(x)) && x.io !in s.reg.handlers
    requires s' == s.(q := s'.q, h := s.h.(owner := s.h.owner[x.io := x]))
    requires forall e :: Flow(s', e) == Flow(s, e) + One(e == EventOf(Register(x)))
    ensures FlowWf(s') && RegisterOnce(s')
  {
    hide Unused;
    forall e | Flow(s', e) > 0
      ensures WfEvent(e, s'.h.owner)
    {
      if Flow(s, e) > 0 {
        assert WfEvent(e, s.h.owner);
        if e.io == x.io && NamesOwner(e) { NobodyNamed(s, x, e); }
      }
    }
    NobodyNamed(s, x, EventOf(Register(x)));
  }

  lemma RegisterFrame(s: State, a: Action)
    requires TablesOk(s.reg, s.h.owner) && Enabled(s, a) && Fresh(s, a) && a.ApiCall? && a.a.Register?
    ensures var s', x := Apply(s, a), a.a.x;
            && s' == s.(q := s'.q, h := s.h.(owner := s.h.owner[x.io := x]))
            && x !in s.h.attached && x.io !in s.reg.handlers
            && forall e :: Flow(s', e) == Flow(s, e) + One(e == EventOf(Register(x)))
  {
    forall e
      ensures Flow(Apply(s, a), e) == Flow(s, e) + One(e == EventOf(a.a))
    {
      FlowStep(s, a, e);
    }
  }

  lemma RegisterTables(reg: Registry, owner: map<Fd, Handler>, x: Handler)
    requires TablesOk(reg, owner) && x.io !in reg.handlers
    ensures TablesOk(reg, owner[x.io := x])
  {
  }

  lemma StepRegister(s: State, a: Action)
    requires Inv(s) && Enabled(s, a) && Fresh(s, a)
    requires a.ApiCall? && a.a.Register?
    ensures Inv(Apply(s, a))
  {
    hide FlowWf, RegisterOnce, LivesOk, Apply, Enabled, Flow;
    var s' := Apply(s, a);
    var x := a.a.x;
    RegisterFrame(s, a);
    RegisterLives(s, s', x);
    RegisterFlow(s, s', x);
    RegisterTables(s.reg, s.h.owner, x);
  }

  /** One callback to `x`: nobody else's life changes, and x's as it should. */
  lemma LivesAfterCall(s: State, s': State, x: Handler, cb: Callback)
    requires LivesOk(s)
    requires s'.h == s.h.(calls := s.h.calls + [Call(x, cb)], attached := s.h.attached + {x})
    requires forall y :: y != x ==> (Known(s', y) <==> Known(s, y)) && (Down(s', y) <==> Down(s, y))
    requires forall y :: y != x && Known(s, y) ==> (y.io in s'.reg.closeCall <==> y.io in s.reg.closeCall)
    requires var l := LifeStep(LifeOf(s.h.calls, x), cb);
             if Known(s', x) then l == (if Down(s', x) then Gone else if x.io in s'.reg.closeCall then Closed else Live) else l == Gone
    ensures LivesOk(s')
    ensures forall y :: LifeOf(s'.h.calls, y) == (if y == x then LifeStep(LifeOf(s.h.calls, x), cb) else LifeOf(s.h.calls, y))
  {
    forall y
      ensures LifeOk(s', y)
      ensures LifeOf(s'.h.calls, y) == (if y == x then LifeStep(LifeOf(s.h.calls, x), cb) else LifeOf(s.h.calls, y))
    {
      assert LifeOk(s, y);
      LifeLast(s.h.calls, Call(x, cb), y);
    }
  }

  lemma SameFlow(s: State, s': State)
    requires FlowWf(s) && s'.q == s.q && s'.h.owner == s.h.owner
    requires s'.phase == s.phase || !(s.phase.Reading? || s'.phase.Reading?)
    ensures FlowWf(s') && forall e :: Flow(s', e) == Flow(s, e)
  {
  }

  /** A call to a handler whose life has begun leaves every pending registration
      as it was. */
  lemma OnceAfterCall(s: State, s': State)
    requires RegisterOnce(s)
    requires forall e :: Flow(s', e) == Flow(s, e)
    requires forall y :: LifeOf(s.h.calls, y) == New ==> LifeOf(s'.h.calls, y) == New
    requires s'.reg.handlers.Keys <= s.reg.handlers.Keys
    ensures RegisterOnce(s')
  {
  }

  /** A callback that may come any number of times while the handler is known. */
  lemma Called(s: State, x: Handler, cb: Callback)
    requires Inv(s) && Known(s, x) && !Down(s, x)
    requires cb.OnInput? || cb.OnOutput? || cb.OnError? || cb.OnTimeout?
    ensures Inv(Invoke(s, x, cb))
  {
    var s' := Invoke(s, x, cb);
    SameFlow(s, s');
    assert LifeOk(s, x);
    assert s.h.attached + {x} == s.h.attached;
    LivesAfterCall(s, s', x, cb);
    OnceAfterCall(s, s');
  }

  /** Raising one of the dispatcher's own removals. */
  lemma RaisedHere(s: State, r: Event)
    requires Inv(s)
    requires r == RemoveStaleEvent(r.io) || r == RemoveWriteEvent(r.io)
    ensures Inv(RaiseHere(s, r))
  {
    hide FlowWf, LivesOk, TablesOk, PhaseOk, RegisterOnce, Flow, Num;
    forall e
      ensures Flow(RaiseHere(s, r), e) == Flow(s, e) + One(r == e && Accepted(r))
    {
      FlowRaise(s, r, e);
    }
    Quiet(s, RaiseHere(s, r));
  }

  lemma StepIo(s: State, e: Event)
    requires Inv(s) && s.phase.Dispatching? && IsIo(e.kind)
    ensures Inv(DispatchIo(s, e))
  {
    if e.io !in s.reg.handlers {
      RaisedHere(s, RemoveStaleEvent(e.io));
    } else {
      var x := s.reg.handlers[e.io];
      match e.kind {
        case Read => Called(s, x, OnInput);
        case Error => Called(s, x, OnError);
        case Write =>
          RaisedHere(s, RemoveWriteEvent(x.io));
          Called(RaiseHere(s, RemoveWriteEvent(x.io)), x, OnOutput);
        case Close =>
          if x.io !in s.reg.closeCall {
            StepClose(s, x);
          }
      }
    }
  }

  function MarkClosed(s: State, x: Handler): State {
    Invoke(s.(reg := s.reg.(closeCall := s.reg.closeCall + {x.io})), x, OnClose)
  }

  lemma CloseLives(s: State, x: Handler)
    requires LivesOk(s) && s.phase.Dispatching? && Known(s, x) && x.io !in s.reg.closeCall
    ensures var s' := MarkClosed(s, x);
            LivesOk(s') && forall y :: LifeOf(s.h.calls, y) == New ==> LifeOf(s'.h.calls, y) == New
  {
    assert LifeOk(s, x);
    assert s.h.attached + {x} == s.h.attached;
    LivesAfterCall(s, MarkClosed(s, x), x, OnClose);
  }

  lemma StepClose(s: State, x: Handler)
    requires Inv(s) && s.phase.Dispatching? && Known(s, x) && x.io !in s.reg.closeCall
    ensures Inv(MarkClosed(s, x))
  {
    var s' := MarkClosed(s, x);
    SameFlow(s, s');
    CloseLives(s, x);
    OnceAfterCall(s, s');
  }

  /** Adding or dropping the timer entry of a known handler. */
  lemma StepUser(s: State, e: Event, now: nat)
    requires Inv(s) && s.phase.Dispatching? && IsUser(e.kind) && WfEvent(e, s.h.owner)
    ensures Inv(DispatchResult(DispatchUser(s, e, now), e))
  {
    var s' := DispatchUser(s, e, now);
    assert DispatchResult(s', e) == s';
    SameFlow(s, s');
    forall y
      ensures LifeOk(s', y)
    {
      assert LifeOk(s, y);
    }
  }

  /** The registration event reaches the dispatcher. */
  lemma AttachLives(s: State, x: Handler)
    requires LivesOk(s) && s.phase.Dispatching?
    requires x.io in s.h.owner && s.h.owner[x.io] == x
    requires LifeOf(s.h.calls, x) == New && x.io !in s.reg.handlers && s.reg.closeCall <= s.reg.handlers.Keys
    ensures var s' := Attach(s, x.io, x);
            LivesOk(s') && forall y :: y != x ==> LifeOf(s'.h.calls, y) == LifeOf(s.h.calls, y)
  {
    LivesAfterCall(s, Attach(s, x.io, x), x, OnRegistered);
  }

  lemma StepAttach(s: State, x: Handler)
    requires Inv(s) && s.phase.Dispatching?
    requires x.io in s.h.owner && s.h.owner[x.io] == x
    requires Flow(s, EventOf(Register(x))) == 0
    requires LifeOf(s.h.calls, x) == New && x.io !in s.reg.handlers
    ensures Inv(Attach(s, x.io, x))
  {
    var s' := Attach(s, x.io, x);
    SameFlow(s, s');
    AttachLives(s, x);
    AttachOnce(s, s', x);
    AttachTables(s, x);
  }

  lemma AttachOnce(s: State, s': State, x: Handler)
    requires RegisterOnce(s) && FlowWf(s)
    requires forall e :: Flow(s', e) == Flow(s, e)
    requires Flow(s, EventOf(Register(x))) == 0 && x.io in s.h.owner && s.h.owner[x.io] == x
    requires forall y :: y != x ==> LifeOf(s'.h.calls, y) == LifeOf(s.h.calls, y)
    requires s'.reg.handlers == s.reg.handlers[x.io := x]
    ensures RegisterOnce(s')
  {
    forall y
      ensures var n := Flow(s', EventOf(Register(y)));
              n <= 1 && (n > 0 ==> LifeOf(s'.h.calls, y) == New && y.io !in s'.reg.handlers)
    {
      assert Flow(s, EventOf(Register(y))) > 0 ==> WfEvent(EventOf(Register(y)), s.h.owner);
    }
  }

  lemma AttachTables(s: State, x: Handler)
    requires TablesOk(s.reg, s.h.owner) && x.io !in s.reg.handlers
    requires x.io in s.h.owner && s.h.owner[x.io] == x
    ensures TablesOk(Attach(s, x.io, x).reg, s.h.owner)
  {
    var handlers := s.reg.handlers[x.io := x];
    assert handlers.Keys == s.reg.handlers.Keys + {x.io};
    assert |s.reg.handlers| == |s.reg.handlers.Keys| && |handlers| == |handlers.Keys|;
  }

  /** The removal event reaches the dispatcher. */
  lemma StepDetach(s: State, x: Handler)
    requires Inv(s) && s.phase.Dispatching?
    requires x.io in s.h.owner && s.h.owner[x.io] == x
    ensures Inv(Detach(s, x.io, x))
  {
    hide FlowWf, RegisterOnce;
    if x.io in s.reg.handlers {
      var s' := Detach(s, x.io, x);
      SameFlow(s, s');
      assert LifeOk(s, x);
      assert s.h.attached + {x} == s.h.attached;
      LivesAfterCall(s, s', x, OnRemoved);
      OnceAfterCall(s, s');
      DetachTables(s.reg, s'.reg, s.h.owner, x);
    }
  }

  lemma DetachTables(reg: Registry, reg': Registry, owner: map<Fd, Handler>, x: Handler)
    requires TablesOk(reg, owner)
    requires x.io in reg.handlers && reg.handlers[x.io] == x
    requires reg' == reg.(timer := reg.timer - {x}, handlers := reg.handlers - {x.io}, closeCall := reg.closeCall - {x.io}, count := reg.count - 1)
    ensures TablesOk(reg', owner)
  {
    assert reg'.handlers.Keys == reg.handlers.Keys - {x.io};
    assert |reg.handlers| == |reg.handlers.Keys| && |reg'.handlers| == |reg'.handlers.Keys|;
  }

  lemma StepDispatch(s: State, a: Action)
    requires Inv(s) && Enabled(s, a) && a.DispatchNext?
    ensures Inv(Apply(s, a))
  {
    hide LivesOk, TablesOk, PhaseOk, DispatchIo, DispatchUser, Attach, Detach, Num;
    var e := s.q.batch[0];
    var s1 := s.(q := s.q.(batch := s.q.batch[1..]));
    forall f
      ensures Flow(s1, f) == Flow(s, f) - One(f == e)
    {
      NumHead(s.q.batch, f);
    }
    Quiet(s, s1);
    assert Flow(s, e) > 0 by { NumIn(s.q.batch, e); }
    if IsUser(e.kind) {
      StepUser(s1, e, a.now);
    } else if IsIo(e.kind) {
      StepIo(s1, e);
    } else if e.kind.RegisterRead? {
      StepAttach(s1, s.h.owner[e.io]);
    } else if e.kind.RemoveAll? && e.ret {
      StepDetach(s1, s.h.owner[e.io]);
    }
  }

  /** Taking due handlers off the timer. */
  lemma StepExtract(s: State, a: Action)
    requires Inv(s) && Enabled(s, a) && a.ExtractDue?
    ensures Inv(Apply(s, a))
  {
    var s' := Apply(s, a);
    SameFlow(s, s');
    SameLives(s, s');
  }

  /** Nothing a life depends on has changed. */
  lemma SameLives(s: State, s': State)
    requires LivesOk(s) && s'.h == s.h && s'.reg.handlers == s.reg.handlers && s'.reg.closeCall == s.reg.closeCall
    requires forall y :: Known(s, y) ==> (Down(s', y) <==> Down(s, y))
    ensures LivesOk(s')
  {
    forall y
      ensures LifeOk(s', y)
    {
      assert LifeOk(s, y);
    }
  }

  lemma StepFire(s: State, a: Action)
    requires Inv(s) && Enabled(s, a) && a.FireNext?
    ensures Inv(Apply(s, a))
  {
    var x := s.phase.due[0];
    var s1 := s.(phase := Firing(s.phase.due[1..]));
    SameFlow(s, s1);
    SameLives(s, s1);
    assert x in s.phase.due;
    assert forall y :: y in s.phase.due[1..] ==> y in s.phase.due;
    Called(s1, x, OnTimeout);
  }

  lemma ShutdownTail(left: seq<Handler>)
    requires left != [] && forall i, j :: 0 <= i < j < |left| ==> left[i] != left[j]
    ensures left[0] in left && left[0] !in left[1..]
    ensures forall y :: y in left <==> y == left[0] || y in left[1..]
  {
    assert left == [left[0]] + left[1..];
  }

  lemma ShutdownLives(s: State, a: Action)
    requires Inv(s) && Enabled(s, a) && a.ShutdownNext?
    ensures var s' := Apply(s, a);
            LivesOk(s') && forall y :: LifeOf(s.h.calls, y) == New ==> LifeOf(s'.h.calls, y) == New
  {
    hide FlowWf, RegisterOnce, TablesOk;
    var s' := Apply(s, a);
    var x := s.phase.left[0];
    ShutdownTail(s.phase.left);
    assert LifeOk(s, x);
    assert s.h.attached + {x} == s.h.attached;
    LivesAfterCall(s, s', x, OnShutdown);
  }

  lemma StepShutdown(s: State, a: Action)
    requires Inv(s) && Enabled(s, a) && a.ShutdownNext?
    ensures Inv(Apply(s, a))
  {
    var s' := Apply(s, a);
    SameFlow(s, s');
    ShutdownTail(s.phase.left);
    ShutdownLives(s, a);
    OnceAfterCall(s, s');
  }

  lemma StepShutdownEnds(s: State, a: Action)
    requires Inv(s) && Enabled(s, a)
    requires a.ShutdownDone? || (a.DispatchDone? && s.reg.stopping)
    ensures Inv(Apply(s, a))
  {
    hide FlowWf, TablesOk, LivesOk, Flow;
    var s' := Apply(s, a);
    SameFlow(s, s');
    SameLives(s, s');
  }

  lemma StepKeepsInv(s: State, a: Action)
    requires Inv(s) && Enabled(s, a) && Fresh(s, a)
    ensures Inv(Apply(s, a))
  {
    if a.ApiCall? && a.a.Register? {
      StepRegister(s, a);
    } else if a.DispatchNext? {
      StepDispatch(s, a);
    } else if a.ExtractDue? {
      StepExtract(s, a);
    } else if a.FireNext? {
      StepFire(s, a);
    } else if a.ShutdownNext? {
      StepShutdown(s, a);
    } else if a.ShutdownDone? || (a.DispatchDone? && s.reg.stopping) {
      StepShutdownEnds(s, a);
    } else {
      StepQuiet(s, a);
    }
  }

  // ------------------------------------------------------------------ all runs

  /** A run in which every client keeps the promise of `Fresh`. */
  ghost predicate FreshRun(s: State, acts: seq<Action>, s': State)
    decreases |acts|
  {
    if acts == [] then s == s'
    else Enabled(s, acts[0]) && Fresh(s, acts[0]) && FreshRun(Apply(s, acts[0]), acts[1..], s')
  }

  lemma {:induction false} RunKeepsInv(s: State, acts: seq<Action>, s': State)
    requires Inv(s) && FreshRun(s, acts, s')
    ensures Inv(s')
    decreases |acts|
  {
    if acts != [] {
      StepKeepsInv(s, acts[0]);
      RunKeepsInv(Apply(s, acts[0]), acts[1..], s');
    }
  }

  lemma StartInv()
    ensures Inv(START)
  {
  }

  /** The calls one handler receives, in plain words. */
  ghost predicate Orderly(calls: seq<Call>, x: Handler) {
    && (forall j :: 0 <= j < |calls| && calls[j].x == x && calls[j].cb != OnRegistered ==>
          exists i :: 0 <= i < j && calls[i] == Call(x, OnRegistered))
    && (forall i, j :: 0 <= i < j < |calls| && calls[i] == Call(x, OnRegistered) ==> calls[j] != Call(x, OnRegistered))
    && (forall i, j :: 0 <= i < j < |calls| && calls[i] == Call(x, OnClose) ==> calls[j] != Call(x, OnClose))
    && (forall i, j :: 0 <= i < j < |calls| && (calls[i] == Call(x, OnRemoved) || calls[i] == Call(x, OnShutdown)) ==> calls[j].x != x)
  }

  /** What each stage of a life says about the calls made. */
  ghost predicate LifeSays(calls: seq<Call>, x: Handler) {
    && (LifeOf(calls, x) == New <==> forall i :: 0 <= i < |calls| ==> calls[i].x != x)
    && (LifeOf(calls, x) != New ==> exists i :: 0 <= i < |calls| && calls[i] == Call(x, OnRegistered))
    && (LifeOf(calls, x) == Live ==> forall i :: 0 <= i < |calls| ==> calls[i] != Call(x, OnClose))
    && (LifeOf(calls, x) == Gone <==> exists i :: 0 <= i < |calls| && (calls[i] == Call(x, OnRemoved) || calls[i] == Call(x, OnShutdown)))
  }

  lemma LifeSaysStep(before: seq<Call>, c: Call, x: Handler)
    requires LifeSays(before, x) && LifeOf(before + [c], x) != Bad
    ensures LifeSays(before + [c], x)
  {
    LifeLast(before, c, x);
    var calls := before + [c];
    assert forall i :: 0 <= i < |before| ==> calls[i] == before[i];
  }

  lemma OrderlyStep(before: seq<Call>, c: Call, x: Handler)
    requires LifeSays(before, x) && Orderly(before, x) && LifeOf(before + [c], x) != Bad
    ensures Orderly(before + [c], x)
  {
    LifeLast(before, c, x);
    hide LifeOf;
    var calls := before + [c];
    assert forall i :: 0 <= i < |before| ==> calls[i] == before[i];
  }

  lemma {:induction false} LifeMeansOrderly(calls: seq<Call>, x: Handler)
    requires LifeOf(calls, x) != Bad
    ensures Orderly(calls, x) && LifeSays(calls, x)
  {
    if calls != [] {
      var before := calls[..|calls| - 1];
      assert calls == before + [calls[|calls| - 1]];
      LifeLast(before, calls[|calls| - 1], x);
      LifeMeansOrderly(before, x);
      LifeSaysStep(before, calls[|calls| - 1], x);
      OrderlyStep(before, calls[|calls| - 1], x);
    }
  }

  /** And the other way round: calls in order bring a handler to some stage. */
  lemma {:induction false} OrderlyIff(calls: seq<Call>, x: Handler)
    ensures Orderly(calls, x) <==> LifeOf(calls, x) != Bad
    decreases |calls|
  {
    if LifeOf(calls, x) != Bad {
      LifeMeansOrderly(calls, x);
    }
    if Orderly(calls, x) && calls != [] {
      var before := calls[..|calls| - 1];
      assert calls == before + [calls[|calls| - 1]];
      OrderlyBefore(before, calls[|calls| - 1], x);
      OrderlyIff(before, x);
      LifeMeansOrderly(before, x);
      LifeLast(before, calls[|calls| - 1], x);
      if LifeOf(before, x) == Closed { LifeClosed(before, x); }
      if calls[|calls| - 1].x == x { NextIsOrderly(before, calls[|calls| - 1], x); }
    }
  }

  lemma OrderlyBefore(before: seq<Call>, c: Call, x: Handler)
    requires Orderly(before + [c], x)
    ensures Orderly(before, x)
  {
    var calls := before + [c];
    assert forall i :: 0 <= i < |before| ==> calls[i] == before[i];
  }

  /** The stage reached allows the next call. */
  lemma NextIsOrderly(before: seq<Call>, c: Call, x: Handler)
    requires LifeSays(before, x) && LifeOf(before, x) != Bad && Orderly(before + [c], x) && c.x == x
    requires LifeOf(before, x) == Closed ==> Call(x, OnClose) in before
    ensures LifeStep(LifeOf(before, x), c.cb) != Bad
  {
    hide LifeOf;
    var calls, n := before + [c], |before|;
    assert calls[n] == c && forall i :: 0 <= i < n ==> calls[i] == before[i];
  }

  /** Whatever the other threads, the callbacks and the kernel do: every handler's
      calls are in order, with duplicate removals and stale events in flight. */
  lemma CallbacksAreOrderly(acts: seq<Action>, s: State, x: Handler)
    requires FreshRun(START, acts, s)
    ensures Orderly(s.h.calls, x)
  {
    StartInv();
    RunKeepsInv(START, acts, s);
    assert LifeOk(s, x);
    LifeMeansOrderly(s.h.calls, x);
  }

  /** In every reachable state the tables agree: timed handlers and close-marked
      descriptors are registered, and the handler count is their number. */
  lemma TablesAgree(acts: seq<Action>, s: State)
    requires FreshRun(START, acts, s)
    ensures TablesOk(s.reg, s.h.owner)
  {
    StartInv();
    RunKeepsInv(START, acts, s);
  }

  /** The table of handlers is exactly the handlers told of their registration
      and not yet of their removal (before the reactor shuts down), and the
      close marks are exactly those told of a hang-up. */
  lemma RegisteredExactly(acts: seq<Action>, s: State, x: Handler)
    requires FreshRun(START, acts, s)
    requires !s.phase.Shutting? && !s.phase.Stopped?
    ensures Known(s, x) <==>
            (Call(x, OnRegistered) in s.h.calls && Call(x, OnRemoved) !in s.h.calls && Call(x, OnShutdown) !in s.h.calls)
    ensures Known(s, x) ==> (x.io in s.reg.closeCall <==> Call(x, OnClose) in s.h.calls)
  {
    StartInv();
    RunKeepsInv(START, acts, s);
    assert LifeOk(s, x);
    LifeMeansOrderly(s.h.calls, x);
    if LifeOf(s.h.calls, x) == Closed {
      LifeClosed(s.h.calls, x);
    }
  }

  lemma {:induction false} LifeClosed(calls: seq<Call>, x: Handler)
    requires LifeOf(calls, x) == Closed
    ensures Call(x, OnClose) in calls
  {
    var n := |calls| - 1;
    if calls[n] != Call(x, OnClose) {
      LifeClosed(calls[..n], x);
    }
  }
}
