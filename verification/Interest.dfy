/** The interest masks over every run: the user-space table equals the kernel's,
    and removing WRITE interest by exclusive-or never sets the bit. */
module Interest {
  import opened Events
  import opened Demuxer
  import opened Machine
  import opened Lifecycle
  import opened Order

  /** Whatever anybody does, the two tables are equal in every reachable state. */
  lemma {:induction false} TablesAlwaysAgree(s: State, acts: seq<Action>, s': State)
    requires Agree(s.t) && Run(s, acts, s')
    ensures Agree(s'.t)
    decreases |acts|
  {
    if acts != [] {
      var s1 := Apply(s, acts[0]);
      StepAgrees(s, acts[0]);
      TablesAlwaysAgree(s1, acts[1..], s');
    }
  }

  lemma StepAgrees(s: State, a: Action)
    requires Agree(s.t) && Enabled(s, a)
    ensures Agree(Apply(s, a).t)
  {
    if a.DrainNext? {
      ProcessKeepsAgreement(s.t, s.q.waitq[0], a.k);
    } else if a.ReadCtrl? {
      ProcessKeepsAgreement(s.t, s.phase.inbuf[0], a.k);
    } else {
      OtherStepsKeepTables(s, a);
    }
  }

  lemma OtherStepsKeepTables(s: State, a: Action)
    requires Enabled(s, a) && !a.DrainNext? && !a.ReadCtrl?
    ensures Apply(s, a).t == s.t && Apply(s, a).h.refused == s.h.refused
  {
    if a.DispatchNext? {
      DispatchKeepsTables(s.(q := s.q.(batch := s.q.batch[1..])), s.q.batch[0], a.now);
    }
  }

  lemma DispatchKeepsTables(s: State, e: Event, now: nat)
    ensures var s' := Dispatch(s, e, now); s'.t == s.t && s'.h.refused == s.h.refused && s'.h.owner == s.h.owner
  {
  }

  // -------------------------------------------------- one-shot WRITE interest

  function WriteEvent(io: Fd): Event {
    Event(Write, io, Null, true)
  }

  /** Output readiness reported and not yet cleared from the mask: a WRITE event
      not dispatched, or the removal it caused not processed. */
  ghost function Unsettled(s: State, io: Fd): nat {
    Flow(s, WriteEvent(io)) + Flow(s, RemoveWriteEvent(io))
  }

  predicate IsAttached(s: State, io: Fd) {
    io in s.h.owner && s.h.owner[io] in s.h.attached
  }

  /** The registration of a descriptor's owner. */
  function Registration(s: State, io: Fd): Event
    requires io in s.h.owner
  {
    EventOf(Register(s.h.owner[io]))
  }

  /** At most one readiness is unsettled, and while it is, the bit it stands for is
      still set, or the entry is gone.  The rest is why that lasts: entries are of
      registered descriptors; a removal is raised only when the registration has
      been dispatched; and readiness reported ahead of the registration finds the
      entry in place until that has been read. */
  ghost predicate WriteOk(s: State, io: Fd) {
    && Unsettled(s, io) <= 1
    && (Unsettled(s, io) > 0 ==> io in s.h.owner && (io in s.t.user ==> s.t.user[io].wr))
    && (io in s.t.user ==> io in s.h.owner)
    && (io in s.h.owner && Flow(s, RemoveWriteEvent(io)) > 0 ==> Flow(s, Registration(s, io)) == 0)
    && (io in s.h.owner && Unsettled(s, io) > 0 && Registration(s, io) in Unread(s) ==> io in s.t.user)
  }

  ghost predicate Inv2(s: State) {
    && Inv(s)
    && Agree(s.t)
    && QueuesOk(s)
    && InOrder(s)
    && forall io :: WriteOk(s, io)
  }

  // -------------------------------------------------------------- control events

  lemma NotQueued(q: seq<Event>, io: Fd)
    requires forall e :: e in q ==> !IsIo(e.kind)
    ensures Num(q, WriteEvent(io)) == 0
  {
    NumIn(q, WriteEvent(io));
  }

  /** While wait_events_ is drained no readiness is on its way. */
  lemma DrainQuiet(s: State, io: Fd)
    requires QueuesOk(s) && s.phase.Draining?
    ensures Flow(s, WriteEvent(io)) == 0
  {
    hide Num;
    NotQueued(s.q.batch, io);
    NotQueued(s.q.waitq, io);
    NotQueued(s.q.pipe, io);
  }

  lemma CtrlFlow(s: State, a: Action, e: Event)
    requires Enabled(s, a) && (a.DrainNext? || a.ReadCtrl?)
    ensures var c := if a.DrainNext? then s.q.waitq[0] else s.phase.inbuf[0];
            && Flow(s, c) > 0
            && Flow(Apply(s, a), e) == Flow(s, e) - One(c == e && !e.ret)
            && Apply(s, a).t == Process(s.t, c, a.k)
            && Apply(s, a).h.owner == s.h.owner && Apply(s, a).h.attached == s.h.attached
  {
    var c := if a.DrainNext? then s.q.waitq[0] else s.phase.inbuf[0];
    FlowStep(s, a, e);
    NumIn(s.q.waitq, c);
    if a.ReadCtrl? { NumIn(s.phase.inbuf, c); }
  }

  /** Control events of the waiting thread: what is unsettled is a removal, so the
      registration is over. */
  lemma StepDrain(s: State, a: Action, io: Fd)
    requires FlowWf(s) && QueuesOk(s) && WriteOk(s, io) && Enabled(s, a) && a.DrainNext?
    ensures WriteOk(Apply(s, a), io)
  {
    hide Flow, Num, QueuesOk, FlowWf, Apply, Process;
    var c, s' := s.q.waitq[0], Apply(s, a);
    CtrlFlow(s, a, WriteEvent(io));
    CtrlFlow(s, a, RemoveWriteEvent(io));
    if io in s.h.owner { CtrlFlow(s, a, Registration(s, io)); }
    assert WfEvent(c, s.h.owner) by { FlowsWf(s, c); }
    DrainQuiet(s, io);
    DrainQueued(s, a);
    if c.io != io {
      ProcessIsLocal(s.t, c, a.k, io);
    } else {
      ProcessWrites(s.t, c, a.k);
      if io in s.h.owner && Registration(s, io) in Unread(s) { QueuedFlows(s, Registration(s, io)); }
    }
  }

  lemma FlowsWf(s: State, e: Event)
    requires FlowWf(s) && Flow(s, e) > 0
    ensures WfEvent(e, s.h.owner)
  {
  }

  lemma DrainQueued(s: State, a: Action)
    requires QueuesOk(s) && Enabled(s, a) && a.DrainNext?
    ensures !IsIo(s.q.waitq[0].kind) && Unread(Apply(s, a)) == Unread(s)
  {
  }

  /** What a control event may do to the entry of its own descriptor. */
  lemma ProcessWrites(t: Tables, c: Event, k: Answers)
    requires !IsIo(c.kind)
    requires !c.kind.RegisterAll? && !c.kind.RegisterError? && !c.kind.RemoveRead? && !c.kind.RemoveError?
    ensures var t' := Process(t, c, k);
            && (c.io in t.user && t.user[c.io].wr && c.io in t'.user && !c.kind.RemoveWrite? ==> t'.user[c.io].wr)
            && (c.io in t'.user && c.io !in t.user ==> c.kind.RegisterRead? || (c.kind.RegisterWrite? && t'.user[c.io].wr))
            && (c.io in t.user && c.io !in t'.user ==> c.kind.RemoveAll? || c.kind.RemoveWrite?)
  {
  }

  /** Control events of other threads: an entry that is needed stays, because no
      removal comes before the registration. */
  lemma StepRead(s: State, a: Action, io: Fd)
    requires FlowWf(s) && QueuesOk(s) && InOrder(s) && WriteOk(s, io) && Enabled(s, a) && a.ReadCtrl?
    ensures WriteOk(Apply(s, a), io)
  {
    hide Flow, Num, QueuesOk, FlowWf, Apply, Process, InOrder, Ordered;
    var c, s' := s.phase.inbuf[0], Apply(s, a);
    CtrlFlow(s, a, WriteEvent(io));
    CtrlFlow(s, a, RemoveWriteEvent(io));
    if io in s.h.owner { CtrlFlow(s, a, Registration(s, io)); }
    assert WfEvent(c, s.h.owner) by { FlowsWf(s, c); }
    ReadQueued(s, a);
    if c.io != io {
      ProcessIsLocal(s.t, c, a.k, io);
    } else {
      ProcessWrites(s.t, c, a.k);
      if c.kind.RemoveAll? && io in s.h.owner { NotBehindRemoval(s, s.h.owner[io]); }
    }
  }

  lemma ReadQueued(s: State, a: Action)
    requires QueuesOk(s) && Enabled(s, a) && a.ReadCtrl?
    ensures var c := s.phase.inbuf[0];
            && !IsIo(c.kind) && !c.kind.RemoveWrite? && (c.kind.RemoveAll? ==> c.ret)
            && Unread(s) == [c] + Unread(Apply(s, a))
  {
  }

  lemma NotBehindRemoval(s: State, x: Handler)
    requires InOrder(s) && s.phase.Reading? && s.phase.inbuf != [] && s.phase.inbuf[0] == EventOf(Remove(x))
    ensures EventOf(Register(x)) !in Unread(s)
  {
    hide Ordered;
    InOrderAt(s, x);
    InOrderParts(s, x);
    assert Unread(s) == [s.phase.inbuf[0]] + Unread(s)[1..];
    OrderedJoin([s.phase.inbuf[0]], Unread(s)[1..], x);
  }

  // --------------------------------------------------------------------- polling

  lemma {:induction false} EmitAllFrom(ready: seq<Ready>, e: Event)
    requires Num(EmitAll(ready), e) > 0
    ensures exists i :: 0 <= i < |ready| && e in Emit(ready[i])
  {
    NumJoin(Emit(ready[0]), EmitAll(ready[1..]), e);
    if Num(EmitAll(ready[1..]), e) > 0 {
      EmitAllFrom(ready[1..], e);
      var i :| 0 <= i < |ready[1..]| && e in Emit(ready[1..][i]);
      assert ready[1..][i] == ready[i + 1];
    } else {
      NumIn(Emit(ready[0]), e);
      assert e in Emit(ready[0]);
    }
  }

  lemma EmitIn(r: Ready, io: Fd)
    requires WriteEvent(io) in Emit(r)
    ensures r.Io? && r.io == io && r.wr
  {
  }

  lemma EmitOnce(r: Ready, io: Fd)
    ensures Num(Emit(r), WriteEvent(io)) <= 1
    ensures Num(Emit(r), WriteEvent(io)) > 0 ==> r.Io? && r.io == io && r.wr
    ensures Num(Emit(r), RemoveWriteEvent(io)) == 0
  {
    NumIn(Emit(r), WriteEvent(io));
    NumIn(Emit(r), RemoveWriteEvent(io));
  }

  lemma EmitOther(ready: seq<Ready>, io: Fd)
    requires forall i :: 0 <= i < |ready| ==> ready[i].Io? ==> ready[i].io != io
    ensures Num(EmitAll(ready), WriteEvent(io)) == 0
  {
    if Num(EmitAll(ready), WriteEvent(io)) > 0 {
      EmitAllFrom(ready, WriteEvent(io));
      var i :| 0 <= i < |ready| && WriteEvent(io) in Emit(ready[i]);
      EmitIn(ready[i], io);
    }
  }

  predicate EachOnce(ready: seq<Ready>) {
    forall i, j :: 0 <= i < j < |ready| ==> ready[i].Io? && ready[j].Io? ==> ready[i].io != ready[j].io
  }

  /** A descriptor reported at most once gives at most one WRITE event. */
  lemma {:induction false} EmitAllOnce(ready: seq<Ready>, io: Fd)
    requires EachOnce(ready)
    ensures Num(EmitAll(ready), WriteEvent(io)) <= 1
    ensures Num(EmitAll(ready), RemoveWriteEvent(io)) == 0
  {
    if ready != [] {
      NumJoin(Emit(ready[0]), EmitAll(ready[1..]), WriteEvent(io));
      NumJoin(Emit(ready[0]), EmitAll(ready[1..]), RemoveWriteEvent(io));
      EmitOnce(ready[0], io);
      EmitAllOnce(ready[1..], io);
      if ready[0].Io? && ready[0].io == io {
        EmitOther(ready[1..], io);
      }
    }
  }

  lemma NotPosted(q: seq<Event>, io: Fd)
    requires Posted(q)
    ensures Num(q, WriteEvent(io)) == 0 && Num(q, RemoveWriteEvent(io)) == 0
  {
    NumIn(q, WriteEvent(io));
    NumIn(q, RemoveWriteEvent(io));
  }

  lemma PollFlow(s: State, a: Action, e: Event)
    requires Enabled(s, a) && a.Poll?
    ensures Flow(s, e) == Num(s.q.pipe, e)
    ensures Flow(Apply(s, a), e) == Flow(s, e) + Num(EmitAll(a.ready), e)
  {
    FlowStep(s, a, e);
  }

  lemma PollWrites(s: State, a: Action, io: Fd)
    requires Agree(s.t) && QueuesOk(s) && Enabled(s, a) && a.Poll?
    ensures Unsettled(s, io) == 0
    ensures Unsettled(Apply(s, a), io) == Num(EmitAll(a.ready), WriteEvent(io)) <= 1
    ensures Unsettled(Apply(s, a), io) > 0 ==> io in s.t.user && s.t.user[io].wr
  {
    hide EmitAll, Emit, Num, Flow, Posted;
    PollFlow(s, a, WriteEvent(io));
    PollFlow(s, a, RemoveWriteEvent(io));
    NotPosted(s.q.pipe, io);
    EmitAllOnce(a.ready, io);
    if Num(EmitAll(a.ready), WriteEvent(io)) > 0 {
      ReportedWrite(s.t.kernel, a.ready, io);
    }
  }

  lemma ReportedWrite(kernel: map<Fd, Mask>, ready: seq<Ready>, io: Fd)
    requires Reportable(kernel, ready) && Num(EmitAll(ready), WriteEvent(io)) > 0
    ensures io in kernel && kernel[io].wr
  {
    EmitAllFrom(ready, WriteEvent(io));
    var i :| 0 <= i < |ready| && WriteEvent(io) in Emit(ready[i]);
    EmitIn(ready[i], io);
  }

  lemma StepPoll(s: State, a: Action, io: Fd)
    requires Agree(s.t) && QueuesOk(s) && WriteOk(s, io) && Enabled(s, a) && a.Poll?
    ensures WriteOk(Apply(s, a), io)
  {
    hide Agree, QueuesOk, Flow, Reportable, EmitAll;
    PollWrites(s, a, io);
    PollAdds(s, a, RemoveWriteEvent(io));
  }

  lemma PollAdds(s: State, a: Action, e: Event)
    requires Enabled(s, a) && a.Poll? && !IsIo(e.kind)
    ensures Flow(Apply(s, a), e) == Flow(s, e)
  {
    PollFlow(s, a, e);
    if Num(EmitAll(a.ready), e) > 0 { EmitAllIo(a.ready, e); }
  }

  // ------------------------------------------------------------ the other steps

  /** Steps that leave tables and owners alone and do not add to what is unsettled. */
  lemma Carried(s: State, s': State, io: Fd)
    requires WriteOk(s, io)
    requires s'.t == s.t && (io in s.h.owner <==> io in s'.h.owner)
    requires io in s.h.owner ==> s'.h.owner[io] == s.h.owner[io]
    requires Unsettled(s', io) <= Unsettled(s, io)
    requires io in s.h.owner ==>
               && Flow(s', Registration(s, io)) <= Flow(s, Registration(s, io))
               && (Registration(s, io) in Unread(s') ==> Registration(s, io) in Unread(s))
               && (Flow(s', RemoveWriteEvent(io)) > 0 ==> Flow(s, RemoveWriteEvent(io)) > 0 || Flow(s', Registration(s, io)) == 0)
    ensures WriteOk(s', io)
  {
    hide Flow;
  }

  lemma {:induction false} DispatchFlow(s: State, a: Action, e: Event)
    requires Enabled(s, a) && a.DispatchNext?
    ensures Flow(Apply(s, a), e) == Flow(s, e) - One(s.q.batch[0] == e) + Num(Raised(s, s.q.batch[0]), e)
  {
    FlowStep(s, a, e);
  }

  /** A removal is raised for a handler already known: its registration has been
      dispatched. */
  lemma RaisedWrites(s: State, c: Event, io: Fd)
    requires TablesOk(s.reg, s.h.owner) && WfEvent(c, s.h.owner)
    ensures Num(Raised(s, c), WriteEvent(io)) == 0
    ensures Num(Raised(s, c), RemoveWriteEvent(io)) <= One(c == WriteEvent(io))
    ensures Num(Raised(s, c), RemoveWriteEvent(io)) > 0 ==> io in s.reg.handlers
    ensures forall x :: Num(Raised(s, c), EventOf(Register(x))) == 0
  {
  }

  lemma DispatchSettles(s: State, a: Action, io: Fd)
    requires FlowWf(s) && TablesOk(s.reg, s.h.owner) && RegisterOnce(s) && Enabled(s, a) && a.DispatchNext?
    ensures Unsettled(Apply(s, a), io) <= Unsettled(s, io)
    ensures io in s.h.owner ==>
              && Flow(Apply(s, a), Registration(s, io)) <= Flow(s, Registration(s, io))
              && (Flow(Apply(s, a), RemoveWriteEvent(io)) > 0 ==> Flow(s, RemoveWriteEvent(io)) > 0 || Flow(Apply(s, a), Registration(s, io)) == 0)
  {
    hide Flow, Num, Apply, FlowWf, TablesOk, Raised;
    var e := s.q.batch[0];
    DispatchFlow(s, a, WriteEvent(io));
    DispatchFlow(s, a, RemoveWriteEvent(io));
    QueuedFlows(s, e);
    FlowsWf(s, e);
    RaisedWrites(s, e, io);
    if io in s.h.owner {
      DispatchFlow(s, a, Registration(s, io));
      OwnersIo(s, io);
    }
  }

  lemma OwnersIo(s: State, io: Fd)
    requires TablesOk(s.reg, s.h.owner) && io in s.h.owner
    ensures s.h.owner[io].io == io
  {
  }

  lemma StepDispatched(s: State, a: Action, io: Fd)
    requires FlowWf(s) && TablesOk(s.reg, s.h.owner) && RegisterOnce(s) && WriteOk(s, io) && Enabled(s, a) && a.DispatchNext?
    ensures WriteOk(Apply(s, a), io)
  {
    hide FlowWf, TablesOk, RegisterOnce, WriteOk, Flow, Dispatch, Raised;
    var s1 := s.(q := s.q.(batch := s.q.batch[1..]));
    DispatchKeepsTables(s1, s.q.batch[0], a.now);
    DispatchQueues(s1, s.q.batch[0], a.now);
    DispatchSettles(s, a, io);
    Carried(s, Apply(s, a), io);
  }

  lemma DispatchAttaches(s: State, e: Event, now: nat)
    ensures s.h.attached <= Dispatch(s, e, now).h.attached
  {
  }

  lemma CallFlow(s: State, a: Action, e: Event)
    requires Enabled(s, a) && a.ApiCall?
    ensures Flow(Apply(s, a), e) == Flow(s, e) + One(EventOf(a.a) == e && Accepted(e))
  {
    FlowStep(s, a, e);
  }

  lemma CallFrame(s: State, a: Action)
    requires Enabled(s, a) && a.ApiCall?
    ensures var s' := Apply(s, a);
            && s'.t == s.t && s'.h.attached == s.h.attached
            && s'.h.owner == (if a.a.Register? then s.h.owner[a.a.x.io := a.a.x] else s.h.owner)
            && forall e :: e in Unread(s') ==> e in Unread(s) || e == EventOf(a.a)
  {
  }

  /** A descriptor about to be registered has no entry, and nothing about it is
      unsettled. */
  lemma RegisteredPlain(s: State, x: Handler)
    requires WriteOk(s, x.io) && FreshCall(s, Register(x))
    ensures Unsettled(s, x.io) == 0 && x.io !in s.t.user
  {
    hide Flow;
    if x.io in s.h.owner {
      assert Flow(s, WriteEvent(x.io)) == 0;
      assert Flow(s, RemoveWriteEvent(x.io)) == 0;
    }
  }

  lemma StepCalled(s: State, a: Action, io: Fd)
    requires TablesOk(s.reg, s.h.owner) && WriteOk(s, io) && Enabled(s, a) && Fresh(s, a) && a.ApiCall?
    ensures WriteOk(Apply(s, a), io)
  {
    hide Flow, Apply, Enabled, FreshCall, Unread, TablesOk;
    CallFlow(s, a, WriteEvent(io));
    CallFlow(s, a, RemoveWriteEvent(io));
    CallFrame(s, a);
    if a.a.Register? && a.a.x.io == io {
      RegisteredPlain(s, a.a.x);
    } else if io in s.h.owner {
      CallFlow(s, a, Registration(s, io));
      OwnersIo(s, io);
      assert EventOf(a.a) != Registration(s, io);
      Carried(s, Apply(s, a), io);
    }
  }

  lemma StepElse(s: State, a: Action, io: Fd)
    requires WriteOk(s, io) && Enabled(s, a)
    requires !a.DrainNext? && !a.ReadCtrl? && !a.Poll? && !a.DispatchNext? && !a.ApiCall?
    ensures WriteOk(Apply(s, a), io)
  {
    hide Apply, Enabled, Flow, Num, WriteOk, Unread;
    FlowStep(s, a, WriteEvent(io));
    FlowStep(s, a, RemoveWriteEvent(io));
    if io in s.h.owner {
      FlowStep(s, a, Registration(s, io));
    }
    ElseKeepsOwners(s, a);
    ElseKeepsUnread(s, a);
    OtherStepsKeepTables(s, a);
    Carried(s, Apply(s, a), io);
  }

  lemma ElseKeepsOwners(s: State, a: Action)
    requires Enabled(s, a) && !a.DispatchNext? && !a.ApiCall?
    ensures Apply(s, a).h.owner == s.h.owner && Apply(s, a).h.attached == s.h.attached
  {
  }

  lemma ElseKeepsUnread(s: State, a: Action)
    requires Enabled(s, a) && !a.DrainNext? && !a.ReadCtrl? && !a.DispatchNext? && !a.ApiCall?
    ensures Unread(Apply(s, a)) == Unread(s)
  {
    if a.ReadPipe? { assert s.q.pipe[..a.n] + s.q.pipe[a.n..] == s.q.pipe; }
  }

  lemma StepKeepsInv2(s: State, a: Action)
    requires Inv2(s) && Enabled(s, a) && Fresh(s, a)
    ensures Inv2(Apply(s, a))
  {
    hide FlowWf, TablesOk, RegisterOnce, LivesOk, PhaseOk, Agree, QueuesOk, InOrder, WriteOk, Apply, Enabled, Fresh;
    StepKeepsInv(s, a);
    StepAgrees(s, a);
    StepQueues(s, a);
    StepInOrder(s, a);
    forall io
      ensures WriteOk(Apply(s, a), io)
    {
      if a.DrainNext? { StepDrain(s, a, io); }
      else if a.ReadCtrl? { StepRead(s, a, io); }
      else if a.Poll? { StepPoll(s, a, io); }
      else if a.DispatchNext? { StepDispatched(s, a, io); }
      else if a.ApiCall? { StepCalled(s, a, io); }
      else { StepElse(s, a, io); }
    }
  }

  // -------------------------------------------------------------------- all runs

  /** A run in which handlers use the reactor only once attached to it. */
  ghost predicate AttachedRun(s: State, acts: seq<Action>, s': State)
    decreases |acts|
  {
    if acts == [] then s == s'
    else Enabled(s, acts[0]) && Attached(s, acts[0]) && AttachedRun(Apply(s, acts[0]), acts[1..], s')
  }

  lemma {:induction false} AttachedJoin(s: State, a: seq<Action>, s1: State, b: seq<Action>, s2: State)
    requires AttachedRun(s, a, s1) && AttachedRun(s1, b, s2)
    ensures AttachedRun(s, a + b, s2)
    decreases |a|
  {
    hide Apply, Enabled, Attached;
    if a == [] {
      assert a + b == b;
    } else {
      AttachedJoin(Apply(s, a[0]), a[1..], s1, b, s2);
      assert (a + b)[1..] == a[1..] + b;
    }
  }

  lemma AttachedSnoc(s: State, acts: seq<Action>, s1: State, a: Action)
    requires AttachedRun(s, acts, s1) && Enabled(s1, a) && Attached(s1, a)
    ensures AttachedRun(s, acts + [a], Apply(s1, a))
  {
    var s2 := Apply(s1, a);
    assert [a][1..] == [];
    assert AttachedRun(s2, [], s2);
    AttachedJoin(s, acts, s1, [a], s2);
  }

  lemma {:induction false} AttachedIsFresh(s: State, acts: seq<Action>, s': State)
    requires AttachedRun(s, acts, s')
    ensures FreshRun(s, acts, s')
    decreases |acts|
  {
    if acts != [] {
      AttachedIsFresh(Apply(s, acts[0]), acts[1..], s');
    }
  }

  lemma {:induction false} RunKeepsInv2(s: State, acts: seq<Action>, s': State)
    requires Inv2(s) && FreshRun(s, acts, s')
    ensures Inv2(s')
    decreases |acts|
  {
    hide Inv2, Apply, Enabled, Fresh;
    if acts != [] {
      StepKeepsInv2(s, acts[0]);
      RunKeepsInv2(Apply(s, acts[0]), acts[1..], s');
    }
  }

  lemma AttachedKeepsInv2(s: State, acts: seq<Action>, s': State)
    requires Inv2(s) && AttachedRun(s, acts, s')
    ensures Inv2(s')
  {
    hide Inv2, FreshRun, AttachedRun;
    AttachedIsFresh(s, acts, s');
    RunKeepsInv2(s, acts, s');
  }

  lemma StartInv2()
    ensures Inv2(START)
  {
    StartInv();
  }

  /** Whenever a WRITE removal is processed, in any run, it meets no entry or a
      set bit, so the exclusive-or leaves the bit clear. */
  lemma RemoveWriteClears(acts: seq<Action>, s: State, a: Action)
    requires FreshRun(START, acts, s)
    requires Enabled(s, a) && a.DrainNext? && s.q.waitq[0].kind.RemoveWrite?
    ensures var io := s.q.waitq[0].io;
            && (io in s.t.user ==> s.t.user[io].wr)
            && (var t' := Apply(s, a).t; io in t'.user ==> t'.user[io] == s.t.user[io].Clear(Out))
  {
    hide LivesOk, TablesOk, RegisterOnce, PhaseOk, QueuesOk, FreshRun, Flow, FlowWf, InOrder;
    var e := s.q.waitq[0];
    StartInv2();
    RunKeepsInv2(START, acts, s);
    QueuedFlows(s, e);
    FlowsWf(s, e);
    assert WriteOk(s, e.io);
    ToggleClearsIff(s.t, Out, e.io);
  }

  /** And it is processed there or nowhere: in any run at all, whatever the clients
      do, the pipe never carries one. */
  lemma RemoveWriteStaysHome(acts: seq<Action>, s: State, e: Event)
    requires Run(START, acts, s) && e.kind.RemoveWrite?
    ensures e !in s.q.pipe && (s.phase.Reading? ==> e !in s.phase.inbuf)
  {
    RunKeepsQueues(START, acts, s);
  }
}
