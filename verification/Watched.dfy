/** Whom the kernel watches, over every run: readiness and mask entries belong to
    handlers the dispatcher has been told of, and stale interest to none of them. */
module Watched {
  import opened Events
  import opened Demuxer
  import opened Machine
  import opened Lifecycle
  import opened Order
  import opened Interest

  // ------------------------------------------------ more about reachable states

  predicate Ending(s: State) {
    s.phase.Shutting? || s.phase.Stopped?
  }

  /** x is registered, nobody has asked for its removal, and the reactor is not
      shutting down. */
  ghost predicate Served(s: State, x: Handler) {
    Known(s, x) && Flow(s, EventOf(Remove(x))) == 0 && !Ending(s)
  }

  /** Attached, or with its registration waiting in the batch. */
  predicate Announced(s: State, io: Fd) {
    IsAttached(s, io) || (io in s.h.owner && EventOf(Register(s.h.owner[io])) in s.q.batch)
  }

  /** Readiness is only reported for attached handlers. */
  ghost predicate IoOk(s: State) {
    forall e: Event :: IsIo(e.kind) && Flow(s, e) > 0 ==> IsAttached(s, e.io)
  }

  /** Stale interest is only withdrawn after the handler has gone, until the
      reactor shuts down. */
  ghost predicate StaleOk(s: State) {
    forall io: Fd :: Flow(s, RemoveStaleEvent(io)) > 0 && !Ending(s) ==> IsAttached(s, io) && io !in s.reg.handlers
  }

  /** An entry of the mask table belongs to a handler announced to the dispatcher. */
  ghost predicate EntriesOk(s: State) {
    forall io: Fd :: io in s.t.user ==> Announced(s, io)
  }

  /** Interest in output is asked for by attached handlers only. */
  ghost predicate AskersOk(s: State) {
    forall io: Fd :: io in s.h.owner && Flow(s, EventOf(Writable(s.h.owner[io]))) > 0 ==> IsAttached(s, io)
  }

  ghost predicate FrameOk(s: State) {
    && (s.frame.Busy? && s.frame.call.cb.OnShutdown? ==> s.phase.Shutting?)
    && (s.phase.Idle? || s.phase.Firing? ==> s.q.batch == [])
    && INVALID_IO_HANDLE !in s.h.owner
  }

  ghost predicate Inv3(s: State) {
    Inv2(s) && IoOk(s) && StaleOk(s) && EntriesOk(s) && AskersOk(s) && FrameOk(s)
  }

  /** The call that gives a descriptor to a new handler. */
  predicate Registers(a: Action, io: Fd) {
    a.ApiCall? && a.a.Register? && a.a.x.io == io
  }

  /** Only that call changes the owner of a descriptor. */
  lemma HistoryGrows(s: State, a: Action)
    requires Enabled(s, a) && Attached(s, a)
    ensures var s' := Apply(s, a);
            && s.h.attached <= s'.h.attached
            && (forall x :: Owns(s.h, x) && !Registers(a, x.io) ==> Owns(s'.h, x))
    ensures forall io :: IsAttached(s, io) && !Registers(a, io) ==> IsAttached(Apply(s, a), io)
  {
    if a.DispatchNext? {
      var s1 := s.(q := s.q.(batch := s.q.batch[1..]));
      DispatchKeepsTables(s1, s.q.batch[0], a.now);
      DispatchAttaches(s1, s.q.batch[0], a.now);
    } else if a.ApiCall? {
      CallFrame(s, a);
    } else {
      ElseKeepsOwners(s, a);
    }
  }

  /** Before that call there is no readiness, no stale interest and no mask entry
      of the descriptor. */
  lemma RegisteredUnwatched(s: State, a: Action, io: Fd)
    requires Inv3(s) && Enabled(s, a) && Attached(s, a) && Registers(a, io)
    ensures io !in s.t.user && Apply(s, a).t == s.t
    ensures forall e: Event :: e.io == io && IsIo(e.kind) ==> Flow(Apply(s, a), e) == 0
    ensures !Ending(s) ==> Flow(Apply(s, a), RemoveStaleEvent(io)) == 0
  {
    hide Inv2;
    assert io in s.t.user ==> Announced(s, io);
    forall e: Event | e.io == io && (IsIo(e.kind) || (e == RemoveStaleEvent(io) && !Ending(s)))
      ensures Flow(Apply(s, a), e) == 0
    {
      CallFlow(s, a, e);
      assert Flow(s, e) > 0 ==> IsAttached(s, io);
    }
  }

  // ------------------------------------------------------------------- readiness

  /** New readiness comes from polling only. */
  lemma StepIoOk(s: State, a: Action, e: Event)
    requires Inv3(s) && Enabled(s, a) && Attached(s, a)
    requires IsIo(e.kind) && Flow(Apply(s, a), e) > 0
    ensures IsAttached(Apply(s, a), e.io)
  {
    hide Inv, QueuesOk, WriteOk, StaleOk, FrameOk, Apply, Attached, EmitAll, Num;
    HistoryGrows(s, a);
    if Registers(a, e.io) {
      RegisteredUnwatched(s, a, e.io);
    } else if Flow(s, e) == 0 {
      IoFromPoll(s, a, e);
      EmitAllWatched(s.t.kernel, a.ready, e);
      assert Announced(s, e.io);
    }
  }

  lemma IoFromPoll(s: State, a: Action, e: Event)
    requires Enabled(s, a) && IsIo(e.kind) && Flow(s, e) == 0 && Flow(Apply(s, a), e) > 0
    ensures a.Poll? && Num(EmitAll(a.ready), e) > 0
  {
    hide Apply, Flow, Num, EmitAll, Raised;
    FlowStep(s, a, e);
    if a.DispatchNext? {
      RaisedNoIo(s, s.q.batch[0], e);
    }
  }

  lemma RaisedNoIo(s: State, c: Event, e: Event)
    requires IsIo(e.kind)
    ensures Num(Raised(s, c), e) == 0
  {
  }

  lemma EmitAllWatched(kernel: map<Fd, Mask>, ready: seq<Ready>, e: Event)
    requires Reportable(kernel, ready) && Num(EmitAll(ready), e) > 0
    ensures e.io in kernel
  {
    EmitAllFrom(ready, e);
    var i :| 0 <= i < |ready| && e in Emit(ready[i]);
    EmitIo(ready[i], e);
  }

  lemma EmitIo(r: Ready, e: Event)
    requires e in Emit(r)
    ensures r.Io? && r.io == e.io
  {
  }

  // -------------------------------------------------------------- stale interest

  lemma StepStaleOk(s: State, a: Action, io: Fd)
    requires Inv3(s) && Enabled(s, a) && Attached(s, a)
    requires Flow(Apply(s, a), RemoveStaleEvent(io)) > 0 && !Ending(Apply(s, a))
    ensures IsAttached(Apply(s, a), io) && io !in Apply(s, a).reg.handlers
  {
    HistoryGrows(s, a);
    if Ending(s) { EndingStays(s, a); }
    if Registers(a, io) {
      RegisteredUnwatched(s, a, io);
    } else if a.DispatchNext? {
      StaleDispatch(s, a, io);
    } else {
      StaleElse(s, a, io);
    }
  }

  lemma EndingStays(s: State, a: Action)
    requires Enabled(s, a) && Ending(s)
    ensures Ending(Apply(s, a))
  {
  }

  /** Outside dispatching, no handler is added and no stale removal raised. */
  lemma StaleElse(s: State, a: Action, io: Fd)
    requires Inv3(s) && Enabled(s, a) && Attached(s, a) && !a.DispatchNext? && !Ending(s)
    requires Flow(Apply(s, a), RemoveStaleEvent(io)) > 0
    ensures IsAttached(s, io) && io !in Apply(s, a).reg.handlers
  {
    FlowStep(s, a, RemoveStaleEvent(io));
    if a.Poll? && Num(EmitAll(a.ready), RemoveStaleEvent(io)) > 0 {
      EmitAllIo(a.ready, RemoveStaleEvent(io));
    }
    assert Flow(s, RemoveStaleEvent(io)) > 0;
    HandlersElse(s, a);
  }

  lemma HandlersElse(s: State, a: Action)
    requires Enabled(s, a) && !a.DispatchNext?
    ensures Apply(s, a).reg.handlers == s.reg.handlers
  {
  }

  lemma StaleDispatch(s: State, a: Action, io: Fd)
    requires Inv3(s) && Enabled(s, a) && a.DispatchNext? && !Ending(s)
    requires Flow(Apply(s, a), RemoveStaleEvent(io)) > 0
    ensures IsAttached(s, io) && io !in Apply(s, a).reg.handlers
  {
    hide Inv2, EntriesOk, AskersOk, FrameOk, Apply, Flow, Num, Raised;
    var e := s.q.batch[0];
    QueuedFlows(s, e);
    DispatchFlow(s, a, RemoveStaleEvent(io));
    if Flow(s, RemoveStaleEvent(io)) == 0 {
      RaisedStale(s, e, io);
    }
    DispatchAddsNobody(s, a, io);
  }

  lemma DispatchAddsNobody(s: State, a: Action, io: Fd)
    requires Inv2(s) && Enabled(s, a) && a.DispatchNext?
    requires IsAttached(s, io) && io !in s.reg.handlers
    ensures io !in Apply(s, a).reg.handlers
  {
    hide Inv, Agree, QueuesOk, InOrder, WriteOk, Apply, Enabled;
    DispatchAdds(s, a, io);
  }

  lemma RaisedStale(s: State, e: Event, io: Fd)
    requires Num(Raised(s, e), RemoveStaleEvent(io)) > 0
    ensures IsIo(e.kind) && e.io == io && io !in s.reg.handlers
  {
  }

  /** Dispatching adds nobody to an attached handler's descriptor. */
  lemma DispatchAdds(s: State, a: Action, io: Fd)
    requires Inv(s) && Enabled(s, a) && a.DispatchNext?
    requires IsAttached(s, io) && io !in s.reg.handlers
    ensures io !in Apply(s, a).reg.handlers
  {
    hide Dispatch, TablesOk, PhaseOk;
    var e := s.q.batch[0];
    NumIn(s.q.batch, e);
    assert Flow(s, e) > 0;
    assert WfEvent(e, s.h.owner);
    assert LifeOk(s, s.h.owner[io]);
    assert !(e.kind.RegisterRead? && e.io == io);
    var s1 := s.(q := s.q.(batch := s.q.batch[1..]));
    DispatchHandlers(s1, e, a.now, io);
  }

  lemma DispatchHandlers(s: State, e: Event, now: nat, io: Fd)
    requires e.kind.RegisterRead? ==> e.io != io
    ensures io in Dispatch(s, e, now).reg.handlers ==> io in s.reg.handlers && Dispatch(s, e, now).reg.handlers[io] == s.reg.handlers[io]
  {
  }

  /** A handler known after a step, and attached before it, was known before it
      too; and the step was not the dispatch of its removal. */
  lemma KnownBefore(s: State, a: Action, x: Handler)
    requires Inv(s) && Enabled(s, a) && a.DispatchNext?
    requires Known(Apply(s, a), x) && x in s.h.attached
    ensures Known(s, x) && s.q.batch[0] != EventOf(Remove(x))
  {
    hide Dispatch, TablesOk, PhaseOk, Flow, Num, FlowWf, WfEvent;
    var e := s.q.batch[0];
    var s1 := s.(q := s.q.(batch := s.q.batch[1..]));
    QueuedFlows(s, e);
    FlowsWf(s, e);
    assert LifeOk(s, x);
    assert e != EventOf(Register(x));
    DispatchKnows(s1, e, a.now, x);
    if e == EventOf(Remove(x)) {
      DispatchRemoves(s1, x, a.now);
    }
  }

  lemma DispatchKnows(s: State, e: Event, now: nat, x: Handler)
    requires WfEvent(e, s.h.owner) && Known(Dispatch(s, e, now), x)
    ensures Known(s, x) || e == EventOf(Register(x))
  {
  }

  lemma DispatchRemoves(s: State, x: Handler, now: nat)
    ensures x.io !in Dispatch(s, EventOf(Remove(x)), now).reg.handlers
  {
  }

  // ------------------------------------------------------------ asking for output

  lemma StepAskersOk(s: State, a: Action, io: Fd)
    requires Inv3(s) && Enabled(s, a) && Attached(s, a)
    requires io in Apply(s, a).h.owner && Flow(Apply(s, a), EventOf(Writable(Apply(s, a).h.owner[io]))) > 0
    ensures IsAttached(Apply(s, a), io)
  {
    hide Inv2, IoOk, StaleOk, EntriesOk, FrameOk, Apply, Enabled, Flow, FreshCall;
    if Registers(a, io) {
      CallFrame(s, a);
      RegisteredUnasked(s, a, io);
    } else {
      HistoryGrows(s, a);
      OwnerStays(s, a, io);
      AskedBefore(s, a, s.h.owner[io]);
    }
  }

  lemma RegisteredUnasked(s: State, a: Action, io: Fd)
    requires Inv3(s) && Enabled(s, a) && Attached(s, a) && Registers(a, io)
    ensures Flow(Apply(s, a), EventOf(Writable(a.a.x))) == 0
  {
    hide IoOk, StaleOk, EntriesOk, FrameOk, Apply, Enabled, Flow, Num, FreshCall;
    NobodyNamed(s, a.a.x, EventOf(Writable(a.a.x)));
    CallFlow(s, a, EventOf(Writable(a.a.x)));
  }

  lemma OwnerStays(s: State, a: Action, io: Fd)
    requires Enabled(s, a) && io in Apply(s, a).h.owner && !Registers(a, io)
    ensures io in s.h.owner && Apply(s, a).h.owner[io] == s.h.owner[io]
  {
    if a.DispatchNext? {
      DispatchKeepsTables(s.(q := s.q.(batch := s.q.batch[1..])), s.q.batch[0], a.now);
    } else if a.ApiCall? {
      CallFrame(s, a);
    } else {
      ElseKeepsOwners(s, a);
    }
  }

  /** Only the call of an attached handler puts its request in flight. */
  lemma AskedBefore(s: State, a: Action, x: Handler)
    requires Enabled(s, a) && Attached(s, a) && Flow(Apply(s, a), EventOf(Writable(x))) > 0
    ensures Flow(s, EventOf(Writable(x))) > 0 || x in s.h.attached
  {
    hide Apply, Flow, Num, FreshCall, Raised, EmitAll;
    var w := EventOf(Writable(x));
    FlowStep(s, a, w);
    if a.DispatchNext? {
      RaisedUnasked(s, s.q.batch[0], x);
    } else if a.Poll? {
      PollAdds(s, a, w);
    }
  }

  lemma RaisedUnasked(s: State, c: Event, x: Handler)
    ensures Num(Raised(s, c), EventOf(Writable(x))) == 0
  {
  }

  // -------------------------------------------------------------- table entries

  /** Processing a control event makes an entry only for an announced handler. */
  lemma CtrlEntries(s: State, c: Event, k: Answers, io: Fd)
    requires Inv3(s) && Flow(s, c) > 0
    requires io in Process(s.t, c, k).user && io !in s.t.user
    ensures IsAttached(s, io) || (c.ret && io in s.h.owner && c == EventOf(Register(s.h.owner[io])))
  {
    assert WfEvent(c, s.h.owner);
    if c.io != io {
      ProcessIsLocal(s.t, c, k, io);
    } else if c.kind.RegisterWrite? {
      assert IsAttached(s, io);
    }
  }

  lemma StepEntries(s: State, a: Action, io: Fd)
    requires Inv3(s) && Enabled(s, a) && Attached(s, a)
    requires io in Apply(s, a).t.user
    ensures Announced(Apply(s, a), io)
  {
    HistoryGrows(s, a);
    if Registers(a, io) {
      RegisteredUnwatched(s, a, io);
    } else if a.DrainNext? {
      EntriesCtrl(s, s.q.waitq[0], a, io);
    } else if a.ReadCtrl? {
      EntriesCtrl(s, s.phase.inbuf[0], a, io);
    } else {
      OtherStepsKeepTables(s, a);
      assert Announced(s, io);
      if a.DispatchNext? {
        AnnouncedDispatch(s, a, io);
      } else {
        AnnouncedElse(s, a, io);
      }
    }
  }

  lemma EntriesCtrl(s: State, c: Event, a: Action, io: Fd)
    requires Inv3(s) && Enabled(s, a)
    requires (a.DrainNext? && c == s.q.waitq[0]) || (a.ReadCtrl? && c == s.phase.inbuf[0])
    requires io in Apply(s, a).t.user
    ensures Announced(Apply(s, a), io)
  {
    if a.DrainNext? { NumIn(s.q.waitq, c); } else { NumIn(s.phase.inbuf, c); }
    assert Flow(s, c) > 0;
    assert Apply(s, a).t == Process(s.t, c, a.k);
    if io in s.t.user {
      assert Announced(s, io);
    } else {
      CtrlEntries(s, c, a.k, io);
    }
  }

  lemma AnnouncedElse(s: State, a: Action, io: Fd)
    requires Inv3(s) && Enabled(s, a) && Attached(s, a) && Announced(s, io)
    requires !a.DispatchNext? && !a.DrainNext? && !a.ReadCtrl? && !Registers(a, io)
    ensures Announced(Apply(s, a), io)
  {
    hide Inv2, IoOk, StaleOk, EntriesOk, Emit, EmitAll;
    HistoryGrows(s, a);
  }

  lemma AnnouncedDispatch(s: State, a: Action, io: Fd)
    requires Inv3(s) && Enabled(s, a) && Attached(s, a) && Announced(s, io) && a.DispatchNext?
    ensures Announced(Apply(s, a), io)
  {
    hide Inv3, Dispatch, Raised, Attached;
    HistoryGrows(s, a);
    var e := s.q.batch[0];
    var s1 := s.(q := s.q.(batch := s.q.batch[1..]));
    DispatchQueues(s1, e, a.now);
    DispatchKeepsTables(s1, e, a.now);
    if !IsAttached(s, io) && e == EventOf(Register(s.h.owner[io])) {
      DispatchRegisters(s1, s.h.owner[io], a.now);
    }
  }

  lemma DispatchRegisters(s: State, x: Handler, now: nat)
    ensures x in Dispatch(s, EventOf(Register(x)), now).h.attached
  {
  }

  // ---------------------------------------------------------------- every step

  lemma StepFrame(s: State, a: Action)
    requires FrameOk(s) && QueuesOk(s) && Enabled(s, a) && Attached(s, a)
    ensures FrameOk(Apply(s, a))
  {
    if a.DispatchNext? {
      var e := s.q.batch[0];
      var s1 := s.(q := s.q.(batch := s.q.batch[1..]));
      DispatchQueues(s1, e, a.now);
      DispatchKeepsTables(s1, e, a.now);
      DispatchFrame(s1, e, a.now);
    } else {
      FrameElse(s, a);
    }
  }

  lemma DispatchFrame(s: State, e: Event, now: nat)
    requires s.frame.Free?
    ensures var f := Dispatch(s, e, now).frame; f.Busy? ==> !f.call.cb.OnShutdown? && !f.call.cb.OnTimeout?
  {
  }

  lemma FrameElse(s: State, a: Action)
    requires FrameOk(s) && QueuesOk(s) && Enabled(s, a) && Attached(s, a) && !a.DispatchNext?
    ensures FrameOk(Apply(s, a))
  {
  }

  lemma StepKeepsInv3(s: State, a: Action)
    requires Inv3(s) && Enabled(s, a) && Attached(s, a)
    ensures Inv3(Apply(s, a))
  {
    var s' := Apply(s, a);
    StepKeepsInv2(s, a);
    StepFrame(s, a);
    forall e: Event | IsIo(e.kind) && Flow(s', e) > 0
      ensures IsAttached(s', e.io)
    {
      StepIoOk(s, a, e);
    }
    forall io: Fd | Flow(s', RemoveStaleEvent(io)) > 0 && !Ending(s')
      ensures IsAttached(s', io) && io !in s'.reg.handlers
    {
      StepStaleOk(s, a, io);
    }
    forall io: Fd | io in s'.t.user
      ensures Announced(s', io)
    {
      StepEntries(s, a, io);
    }
    forall io: Fd | io in s'.h.owner && Flow(s', EventOf(Writable(s'.h.owner[io]))) > 0
      ensures IsAttached(s', io)
    {
      StepAskersOk(s, a, io);
    }
  }

  lemma StartInv3()
    ensures Inv3(START)
  {
    StartInv2();
  }
}
