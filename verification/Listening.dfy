/** Whom the reactor listens to, over every run: while a handler is registered and
    its descriptor has not been refused, the kernel watches it for input. */
module Listening {
  import opened Events
  import opened Demuxer
  import opened Machine
  import opened Lifecycle
  import opened Order
  import opened Interest
  import opened Watched

  /** Registered, or with its registration waiting in the batch; and nobody has
      asked for its removal. */
  ghost predicate Entitled(s: State, x: Handler) {
    && (Known(s, x) || EventOf(Register(x)) in s.q.batch)
    && Flow(s, EventOf(Remove(x))) == 0
    && x.io !in s.h.refused
    && !Ending(s)
  }

  predicate ReadWatched(t: Tables, io: Fd) {
    io in t.user && t.user[io].rd
  }

  ghost predicate ReadersOk(s: State) {
    forall x :: Entitled(s, x) ==> ReadWatched(s.t, x.io)
  }

  ghost predicate Inv4(s: State) {
    Inv3(s) && ReadersOk(s)
  }

  // -------------------------------------------------------------- control events

  /** A registration the kernel does not refuse sets the bit. */
  lemma RegisterWatches(t: Tables, x: Handler, k: Answers)
    requires !ProcessRefused(t, EventOf(Register(x)), k)
    ensures ReadWatched(Process(t, EventOf(Register(x)), k), x.io)
  {
  }

  /** No other control event clears it but a removal of the whole entry. */
  lemma OthersKeepReading(t: Tables, c: Event, k: Answers, owner: map<Fd, Handler>, io: Fd)
    requires WfEvent(c, owner) && !IsIo(c.kind) && ReadWatched(t, io)
    requires c.kind.RemoveAll? ==> c.io != io
    ensures ReadWatched(Process(t, c, k), io)
  {
    if c.io != io { ProcessIsLocal(t, c, k, io); }
  }

  /** Such a removal is not processed for an entitled handler. */
  lemma NoRemoval(s: State, c: Event, x: Handler)
    requires Inv3(s) && Entitled(s, x) && Flow(s, c) > 0 && c.kind.RemoveAll?
    ensures c.io != x.io
  {
    hide Flow, Num, InOrder, QueuesOk, WriteOk, IoOk, EntriesOk, AskersOk, FrameOk, PhaseOk;
    FlowsWf(s, c);
    QueuedFlows(s, EventOf(Register(x)));
    if EventOf(Register(x)) in s.q.batch { FlowsWf(s, EventOf(Register(x))); }
    assert LifeOk(s, x);
    assert c.io == x.io && c.ret ==> c == EventOf(Remove(x));
  }

  lemma CtrlBatch(s: State, a: Action)
    requires Enabled(s, a) && (a.DrainNext? || a.ReadCtrl?)
    ensures var c, s' := if a.DrainNext? then s.q.waitq[0] else s.phase.inbuf[0], Apply(s, a);
            && s'.reg == s.reg && s.h.refused <= s'.h.refused
            && (ProcessRefused(s.t, c, a.k) ==> c.io in s'.h.refused)
            && (forall e :: e in s'.q.batch ==> e in s.q.batch || e == c)
            && Ending(s') == Ending(s)
  {
  }

  lemma CtrlKeepsReaders(s: State, a: Action, x: Handler)
    requires Inv3(s) && (Entitled(s, x) ==> ReadWatched(s.t, x.io))
    requires Enabled(s, a) && (a.DrainNext? || a.ReadCtrl?) && Entitled(Apply(s, a), x)
    ensures ReadWatched(Apply(s, a).t, x.io)
  {
    hide Inv3, Flow, Num, Apply, Process, ProcessRefused, ReadWatched;
    var c := if a.DrainNext? then s.q.waitq[0] else s.phase.inbuf[0];
    CtrlBatch(s, a);
    CtrlFlow(s, a, EventOf(Remove(x)));
    if c == EventOf(Register(x)) {
      RegisterWatches(s.t, x, a.k);
    } else {
      CtrlNoIo(s, a);
      if c.kind.RemoveAll? { NoRemoval(s, c, x); }
      OthersKeepReading(s.t, c, a.k, s.h.owner, x.io);
    }
  }

  lemma CtrlNoIo(s: State, a: Action)
    requires Inv3(s) && Enabled(s, a) && (a.DrainNext? || a.ReadCtrl?)
    ensures var c := if a.DrainNext? then s.q.waitq[0] else s.phase.inbuf[0];
            WfEvent(c, s.h.owner) && !IsIo(c.kind)
  {
    hide Flow, WriteOk, IoOk, StaleOk, EntriesOk, AskersOk, FrameOk, LivesOk, TablesOk, PhaseOk, RegisterOnce, InOrder;
    if a.DrainNext? { DrainQueued(s, a); } else { ReadQueued(s, a); }
    CtrlFlow(s, a, EventOf(StopRun));
    FlowsWf(s, if a.DrainNext? then s.q.waitq[0] else s.phase.inbuf[0]);
  }

  // ------------------------------------------------------------ the other steps

  /** A dispatched removal leaves neither the handler nor a registration behind. */
  lemma DispatchEntitles(s: State, a: Action, x: Handler)
    requires Inv3(s) && Enabled(s, a) && a.DispatchNext? && Entitled(Apply(s, a), x)
    ensures Entitled(s, x) && Apply(s, a).t == s.t
  {
    hide Flow, Num, Dispatch, Raised, QueuesOk, WriteOk, IoOk, StaleOk, EntriesOk, AskersOk, FrameOk, LivesOk, TablesOk, PhaseOk, RegisterOnce, InOrder, Ordered;
    var e := s.q.batch[0];
    var s1 := s.(q := s.q.(batch := s.q.batch[1..]));
    DispatchKeepsTables(s1, e, a.now);
    DispatchQueues(s1, e, a.now);
    DispatchFlow(s, a, EventOf(Remove(x)));
    QueuedFlows(s, e);
    FlowsWf(s, e);
    if Ending(s) { EndingStays(s, a); }
    if Known(Apply(s, a), x) { DispatchKnows(s1, e, a.now, x); }
    if e == EventOf(Remove(x)) {
      DispatchRemoves(s1, x, a.now);
      RemovalIsLast(s, x);
    }
  }

  lemma RemovalIsLast(s: State, x: Handler)
    requires InOrder(s) && s.q.batch != [] && s.q.batch[0] == EventOf(Remove(x))
    ensures EventOf(Register(x)) !in s.q.batch
  {
    hide Ordered;
    InOrderAt(s, x);
    InOrderParts(s, x);
    assert s.q.batch == [s.q.batch[0]] + s.q.batch[1..];
    OrderedJoin([s.q.batch[0]], s.q.batch[1..], x);
  }

  lemma ElseEntitles(s: State, a: Action, x: Handler)
    requires FrameOk(s) && Enabled(s, a) && Entitled(Apply(s, a), x)
    requires !a.DrainNext? && !a.ReadCtrl? && !a.DispatchNext?
    ensures Entitled(s, x) && Apply(s, a).t == s.t
  {
    hide Flow, Apply, Enabled;
    OtherStepsKeepTables(s, a);
    FlowStep(s, a, EventOf(Remove(x)));
    HandlersElse(s, a);
    ElseBatch(s, a, x);
    if Ending(s) { EndingStays(s, a); }
  }

  lemma ElseBatch(s: State, a: Action, x: Handler)
    requires FrameOk(s) && Enabled(s, a)
    requires !a.DrainNext? && !a.ReadCtrl? && !a.DispatchNext?
    ensures EventOf(Register(x)) in Apply(s, a).q.batch ==> EventOf(Register(x)) in s.q.batch
    ensures FlowAfter(s, a, EventOf(Remove(x))) >= Flow(s, EventOf(Remove(x)))
  {
    if a.ReadIo? { EmitNeutral(s.phase.ready[0], x); }
  }

  lemma StepKeepsReaders(s: State, a: Action, x: Handler)
    requires Inv3(s) && (Entitled(s, x) ==> ReadWatched(s.t, x.io))
    requires Enabled(s, a) && Entitled(Apply(s, a), x)
    ensures ReadWatched(Apply(s, a).t, x.io)
  {
    hide Inv2, IoOk, StaleOk, EntriesOk, AskersOk, FrameOk, Entitled, ReadWatched, Apply, Enabled;
    if a.DrainNext? || a.ReadCtrl? {
      CtrlKeepsReaders(s, a, x);
    } else if a.DispatchNext? {
      DispatchEntitles(s, a, x);
    } else {
      ElseEntitles(s, a, x);
    }
  }

  lemma StepKeepsInv4(s: State, a: Action)
    requires Inv4(s) && Enabled(s, a) && Attached(s, a)
    ensures Inv4(Apply(s, a))
  {
    hide Inv3, Entitled, ReadWatched, Apply, Enabled, Attached;
    StepKeepsInv3(s, a);
    forall x | Entitled(Apply(s, a), x)
      ensures ReadWatched(Apply(s, a).t, x.io)
    {
      StepKeepsReaders(s, a, x);
    }
  }

  lemma {:induction false} RunKeepsInv4(s: State, acts: seq<Action>, s': State)
    requires Inv4(s) && AttachedRun(s, acts, s')
    ensures Inv4(s')
    decreases |acts|
  {
    hide Inv4, Apply, Enabled, Attached;
    if acts != [] {
      StepKeepsInv4(s, acts[0]);
      RunKeepsInv4(Apply(s, acts[0]), acts[1..], s');
    }
  }

  /** Over every run: the kernel watches every registered handler for input, as long
      as no epoll_ctl has been refused for its descriptor, nobody has asked for its
      removal and the reactor is not shutting down. */
  lemma ServedIsRead(acts: seq<Action>, s: State, x: Handler)
    requires AttachedRun(START, acts, s)
    requires Served(s, x) && x.io !in s.h.refused
    ensures x.io in s.t.kernel && s.t.kernel[x.io].rd
  {
    hide AttachedRun, Flow, IoOk, StaleOk, EntriesOk, AskersOk, FrameOk, Inv, QueuesOk, InOrder, WriteOk;
    StartInv3();
    RunKeepsInv4(START, acts, s);
    assert Entitled(s, x);
  }

  // --------------------------------------------- without the promise about output

  lemma FreshSnoc(s: State, acts: seq<Action>, s1: State, a: Action)
    requires FreshRun(s, acts, s1) && Enabled(s1, a) && Fresh(s1, a)
    ensures FreshRun(s, acts + [a], Apply(s1, a))
  {
    var s2 := Apply(s1, a);
    assert [a][1..] == [];
    assert FreshRun(s2, [], s2);
    FreshJoin(s, acts, s1, [a], s2);
  }

  lemma {:induction false} FreshJoin(s: State, a: seq<Action>, s1: State, b: seq<Action>, s2: State)
    requires FreshRun(s, a, s1) && FreshRun(s1, b, s2)
    ensures FreshRun(s, a + b, s2)
    decreases |a|
  {
    hide Apply, Enabled, Fresh;
    if a == [] {
      assert a + b == b;
    } else {
      FreshJoin(Apply(s, a[0]), a[1..], s1, b, s2);
      assert (a + b)[1..] == a[1..] + b;
    }
  }

  /** A handler y has been registered and is being told so. */
  function Telling(y: Handler): State {
    State(Tables(map[y.io := INIT.Or(In)], map[y.io := INIT.Or(In)]), Queues([], [], []), Dispatching,
          Busy(Call(y, OnRegistered)), Registry(map[y.io := y], {}, 1, map[], false),
          History(map[y.io := y], {y}, {}, [Call(y, OnRegistered)]))
  }

  const YES := Answers(true, true, true)

  lemma EmptyRun(s: State)
    ensures FreshRun(s, [], s)
  {
  }

  /** One step that leads to the state named. */
  lemma Go(acts: seq<Action>, s: State, a: Action, to: State) returns (acts': seq<Action>, s': State)
    requires FreshRun(START, acts, s) && Enabled(s, a) && Fresh(s, a) && Apply(s, a) == to
    ensures s' == to && FreshRun(START, acts', s')
  {
    FreshSnoc(START, acts, s, a);
    acts', s' := acts + [a], to;
  }

  /** Its registration has been read from the pipe. */
  function JustRead(y: Handler): State {
    State(Tables(map[], map[]), Queues([], [], []), Reading([], [EventOf(Register(y))]), Free,
          Registry(map[], {}, 0, map[], false), History(map[y.io := y], {}, {}, []))
  }

  lemma ReachReading(y: Handler) returns (acts: seq<Action>)
    requires y.io != INVALID_IO_HANDLE
    ensures FreshRun(START, acts, JustRead(y))
  {
    hide FreshRun, Flow;
    var r := EventOf(Register(y));
    EmptyRun(START);
    var s;
    acts, s := Go([], START, ApiCall(Register(y), false), JustRead(y).(phase := Idle, q := Queues([], [r], [])));
    acts, s := Go(acts, s, BeginWait, s.(phase := Draining));
    acts, s := Go(acts, s, Poll([PipeReady]), s.(phase := Reading([PipeReady], [])));
    assert [r][..1] == [r] && [r][1..] == [] && [PipeReady][1..] == [];
    acts, s := Go(acts, s, ReadPipe(1), JustRead(y));
  }

  lemma ReachTelling(y: Handler) returns (acts: seq<Action>)
    requires y.io != INVALID_IO_HANDLE
    ensures FreshRun(START, acts, Telling(y))
  {
    hide FreshRun, Flow;
    var r := EventOf(Register(y));
    acts := ReachReading(y);
    var s := JustRead(y);
    assert [r][1..] == [];
    acts, s := Go(acts, s, ReadCtrl(YES), s.(phase := Reading([], []), q := Queues([], [], [r]), t := Telling(y).t));
    acts, s := Go(acts, s, ReadDone, s.(phase := Dispatching));
    acts, s := Go(acts, s, DispatchNext(0), Telling(y));
  }

  predicate Apart(y: Handler, x: Handler) {
    y.io != INVALID_IO_HANDLE && x.io != INVALID_IO_HANDLE && y.io != x.io
  }

  /** While y is being told, another thread registers x, and y's callback asks for
      x's output; that request is processed first, for wait_events_ is. */
  function AskedEarly(y: Handler, x: Handler): State {
    var s := Telling(y);
    s.(t := Tables(s.t.user[x.io := INIT.Or(Out)], s.t.kernel[x.io := INIT.Or(Out)]),
       q := Queues([], [EventOf(Register(x))], []), phase := Draining, frame := Free,
       h := s.h.(owner := s.h.owner[x.io := x]))
  }

  function BothPosted(y: Handler, x: Handler): State {
    var s := Telling(y);
    s.(q := Queues([EventOf(Writable(x))], [EventOf(Register(x))], []), h := s.h.(owner := s.h.owner[x.io := x]))
  }

  lemma ReachBothPosted(y: Handler, x: Handler) returns (acts: seq<Action>)
    requires Apart(y, x)
    ensures FreshRun(START, acts, BothPosted(y, x))
  {
    hide FreshRun, Flow;
    acts := ReachTelling(y);
    var s := Telling(y);
    acts, s := Go(acts, s, ApiCall(Register(x), false), BothPosted(y, x).(q := Queues([], [EventOf(Register(x))], [])));
    acts, s := Go(acts, s, ApiCall(Writable(x), true), BothPosted(y, x));
  }

  lemma ReachAskedEarly(y: Handler, x: Handler) returns (acts: seq<Action>)
    requires Apart(y, x)
    ensures FreshRun(START, acts, AskedEarly(y, x))
  {
    hide FreshRun, Flow;
    acts := ReachBothPosted(y, x);
    var s := BothPosted(y, x);
    acts, s := Go(acts, s, Return, s.(frame := Free));
    acts, s := Go(acts, s, DispatchDone([]), s.(phase := Idle));
    acts, s := Go(acts, s, BeginWait, s.(phase := Draining));
    acts, s := Go(acts, s, DrainNext(YES), AskedEarly(y, x));
  }

  /** The kernel reports x ready for output in the batch that brings its
      registration, and ahead of it. */
  function ReportedEarly(y: Handler, x: Handler): State {
    var s := AskedEarly(y, x);
    var m := INIT.Or(Out).Or(In);
    s.(t := Tables(s.t.user[x.io := m], s.t.kernel[x.io := m]),
       q := Queues([], [], [WriteEvent(x.io), EventOf(Register(x))]), phase := Dispatching)
  }

  function ReportedFirst(y: Handler, x: Handler): State {
    var s := AskedEarly(y, x);
    s.(phase := Reading([PipeReady], []), q := Queues([], [EventOf(Register(x))], [WriteEvent(x.io)]))
  }

  lemma ReachReportedFirst(y: Handler, x: Handler) returns (acts: seq<Action>)
    requires Apart(y, x)
    ensures FreshRun(START, acts, ReportedFirst(y, x))
  {
    hide FreshRun, Flow;
    var ready := Io(x.io, false, true, false, false);
    acts := ReachAskedEarly(y, x);
    var s := AskedEarly(y, x);
    acts, s := Go(acts, s, Poll([ready, PipeReady]), s.(phase := Reading([ready, PipeReady], [])));
    assert [ready, PipeReady][1..] == [PipeReady];
    acts, s := Go(acts, s, ReadIo, ReportedFirst(y, x));
  }

  lemma ReachReportedEarly(y: Handler, x: Handler) returns (acts: seq<Action>)
    requires Apart(y, x)
    ensures FreshRun(START, acts, ReportedEarly(y, x))
  {
    hide FreshRun, Flow;
    var r := EventOf(Register(x));
    acts := ReachReportedFirst(y, x);
    var s := ReportedFirst(y, x);
    assert [r][..1] == [r] && [r][1..] == [] && [PipeReady][1..] == [];
    acts, s := Go(acts, s, ReadPipe(1), s.(phase := Reading([], [r]), q := Queues([], [], [WriteEvent(x.io)])));
    acts, s := Go(acts, s, ReadCtrl(YES), ReportedEarly(y, x).(phase := Reading([], [])));
    acts, s := Go(acts, s, ReadDone, ReportedEarly(y, x));
  }

  /** Where that leads: x is registered, and the kernel watches it for nothing. */
  function Unheard(y: Handler, x: Handler): State {
    var s := ReportedEarly(y, x);
    s.(t := Telling(y).t, q := Queues([], [], []), phase := Draining,
       reg := s.reg.(handlers := s.reg.handlers[x.io := x], count := 2),
       h := s.h.(attached := {y, x}, calls := [Call(y, OnRegistered), Call(x, OnRegistered)]))
  }

  /** The readiness has met no handler, and its withdrawal is queued; now x is told. */
  function ToldLate(y: Handler, x: Handler): State {
    Unheard(y, x).(t := ReportedEarly(y, x).t, q := Queues([RemoveStaleEvent(x.io)], [], []),
                   phase := Dispatching, frame := Busy(Call(x, OnRegistered)))
  }

  lemma ReachToldLate(y: Handler, x: Handler) returns (acts: seq<Action>)
    requires Apart(y, x)
    ensures FreshRun(START, acts, ToldLate(y, x))
  {
    hide FreshRun, Flow;
    var r := EventOf(Register(x));
    acts := ReachReportedEarly(y, x);
    var s := ReportedEarly(y, x);
    assert [WriteEvent(x.io), r][1..] == [r] && [r][1..] == [];
    acts, s := Go(acts, s, DispatchNext(0), s.(q := Queues([RemoveStaleEvent(x.io)], [], [r])));
    acts, s := Go(acts, s, DispatchNext(0), ToldLate(y, x));
  }

  lemma ReachUnheard(y: Handler, x: Handler) returns (acts: seq<Action>)
    requires Apart(y, x)
    ensures FreshRun(START, acts, Unheard(y, x))
  {
    hide FreshRun, Flow;
    acts := ReachToldLate(y, x);
    var s, end := ToldLate(y, x), Unheard(y, x);
    acts, s := Go(acts, s, Return, s.(frame := Free));
    acts, s := Go(acts, s, DispatchDone([]), s.(phase := Idle));
    acts, s := Go(acts, s, BeginWait, s.(phase := Draining));
    assert s.t.user - {x.io} == end.t.user;
    acts, s := Go(acts, s, DrainNext(YES), end);
  }

  /** The promise about register_writable is needed: with interest in output asked
      for before the registration is dispatched, a registered handler that was
      never refused nor removed may not be watched at all. */
  lemma UnheardReached(y: Handler, x: Handler)
    requires Apart(y, x)
    ensures exists acts :: FreshRun(START, acts, Unheard(y, x))
    ensures Served(Unheard(y, x), x) && Unheard(y, x).h.refused == {} && x.io !in Unheard(y, x).t.kernel
  {
    var acts := ReachUnheard(y, x);
  }
}
