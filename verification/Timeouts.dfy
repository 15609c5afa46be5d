/** When a handler's timeout may be called, and what the shutdown leaves behind, over
    every run. */
module Timeouts {
  import opened Events
  import opened Demuxer
  import opened Machine
  import opened Lifecycle
  import opened Calls

  // -------------------------------------------------------------------- the timer

  /** A registered handler's timeout is set, msec milliseconds from the reading. */
  predicate Sets(s: State, a: Action, x: Handler) {
    a.DispatchNext? && s.q.batch != [] && Known(s, x) && s.q.batch[0].kind.TimeoutAdd? && s.q.batch[0].io == x.io
  }

  /** It is unset, or the handler goes, or its time has come. */
  predicate Drops(s: State, a: Action, x: Handler) {
    || (a.DispatchNext? && s.q.batch != [] && Known(s, x) && s.q.batch[0].kind.TimeoutDel? && s.q.batch[0].io == x.io)
    || (Known(s, x) && Dispatches(s, a, Event(RemoveAll, x.io, Ptr(x), true)))
    || (a.ExtractDue? && x in a.due)
    || (a.ShutdownNext? && s.phase.Shutting? && s.phase.left != [] && s.phase.left[0] == x)
  }

  lemma UserTimer(s: State, e: Event, now: nat, x: Handler)
    requires TablesOk(s.reg, s.h.owner) && IsUser(e.kind) && WfEvent(e, s.h.owner)
    ensures var t, t' := s.reg.timer, Dispatch(s, e, now).reg.timer;
            if e.kind.TimeoutAdd? && Known(s, x) && e.io == x.io then x in t' && t'[x] == now + e.data.msec % 0x1_0000_0000 * 1_000_000
            else if e.kind.TimeoutDel? && Known(s, x) && e.io == x.io then x !in t'
            else (x in t' <==> x in t) && (x in t ==> t'[x] == t[x])
  {
  }

  lemma OtherTimer(s: State, e: Event, now: nat, x: Handler)
    requires TablesOk(s.reg, s.h.owner) && !IsUser(e.kind) && WfEvent(e, s.h.owner)
    ensures var t, t' := s.reg.timer, Dispatch(s, e, now).reg.timer;
            if Known(s, x) && e == Event(RemoveAll, x.io, Ptr(x), true) then x !in t'
            else (x in t' <==> x in t) && (x in t ==> t'[x] == t[x])
  {
  }

  lemma DispatchTimer(s: State, a: Action, x: Handler)
    requires FlowWf(s) && TablesOk(s.reg, s.h.owner) && Enabled(s, a) && a.DispatchNext?
    ensures var t, t' := s.reg.timer, Apply(s, a).reg.timer;
            if Sets(s, a, x) then
              x in t' && s.q.batch[0].data.Msec? && t'[x] == a.now + s.q.batch[0].data.msec % 0x1_0000_0000 * 1_000_000
            else if Drops(s, a, x) then x !in t'
            else (x in t' <==> x in t) && (x in t ==> t'[x] == t[x])
  {
    hide Dispatch, FlowWf, TablesOk;
    HeadWf(s);
    var s1 := s.(q := s.q.(batch := s.q.batch[1..]));
    if IsUser(s.q.batch[0].kind) { UserTimer(s1, s.q.batch[0], a.now, x); } else { OtherTimer(s1, s.q.batch[0], a.now, x); }
  }

  lemma QuietTimer(s: State, a: Action, x: Handler)
    requires Enabled(s, a) && !a.DispatchNext?
    ensures var t, t' := s.reg.timer, Apply(s, a).reg.timer;
            if Drops(s, a, x) then x !in t' else (x in t' <==> x in t) && (x in t ==> t'[x] == t[x])
  {
    hide Dispatch, Process, ProcessRefused, EventOf, Emit;
  }

  /** What each step does to one handler's timeout: a handler waits from the time its
      timeout is set until it is unset, removed, shut down or due, and no longer. */
  lemma TimerIs(s: State, a: Action, x: Handler)
    requires Inv(s) && Enabled(s, a)
    ensures var t, t' := s.reg.timer, Apply(s, a).reg.timer;
            if Sets(s, a, x) then
              x in t' && s.q.batch[0].data.Msec? && t'[x] == a.now + s.q.batch[0].data.msec % 0x1_0000_0000 * 1_000_000
            else if Drops(s, a, x) then x !in t'
            else (x in t' <==> x in t) && (x in t ==> t'[x] == t[x])
  {
    hide Apply, Enabled, Drops, RegisterOnce, LivesOk, PhaseOk, FlowWf, TablesOk;
    if a.DispatchNext? { DispatchTimer(s, a, x); } else { QuietTimer(s, a, x); }
  }

  /** x waits in the timer, or has been taken out and is about to be called. */
  predicate Armed(s: State, x: Handler) {
    x in s.reg.timer || (s.phase.Firing? && x in s.phase.due)
  }

  predicate NotBoth(s: State, x: Handler) {
    s.phase.Firing? ==> Once(s.phase.due) && (x in s.phase.due ==> x !in s.reg.timer)
  }

  function CallsTo(calls: seq<Call>, c: Call): nat {
    multiset(calls)[c]
  }

  /** How often x's timeout has been set. */
  ghost function SetsIn(s: State, acts: seq<Action>, x: Handler): nat
    decreases |acts|
  {
    if acts == [] || !Enabled(s, acts[0]) then 0 else One(Sets(s, acts[0], x)) + SetsIn(Apply(s, acts[0]), acts[1..], x)
  }

  lemma CallsToStep(s: State, a: Action, c: Call)
    requires Inv(s) && Enabled(s, a)
    ensures CallsTo(Apply(s, a).h.calls, c) == CallsTo(s.h.calls, c) + One(Causes(s, a, c))
  {
    hide Inv, Apply, Enabled, Causes;
    CallIff(s, a, c);
    if d :| Makes(s, a, d) {
      CallIff(s, a, d);
      PlusIs(s.h.calls, [d], c);
      assert multiset(s.h.calls + [d])[c] == multiset(s.h.calls)[c] + One(c == d);
    } else {
      assert Apply(s, a).h.calls == s.h.calls;
      PlusIs(s.h.calls, [], c);
      assert s.h.calls + [] == s.h.calls;
    }
  }

  lemma PhaseDue(s: State, a: Action)
    requires Enabled(s, a)
    ensures var s' := Apply(s, a);
            s'.phase.Firing? ==>
              if a.ExtractDue? then s'.phase.due == a.due && Once(a.due)
              else s.phase.Firing? && !a.DispatchNext? && (if a.FireNext? then s.phase.due != [] && s'.phase.due == s.phase.due[1..] else s'.phase == s.phase)
  {
    if a.DispatchNext? { DispatchQueues(s.(q := s.q.(batch := s.q.batch[1..])), s.q.batch[0], a.now); }
  }

  lemma OnceTail(due: seq<Handler>, x: Handler)
    requires Once(due) && due != []
    ensures Once(due[1..]) && (x in due <==> x == due[0] || x in due[1..]) && due[0] !in due[1..]
  {
    assert due == [due[0]] + due[1..];
  }

  lemma StepNotBoth(s: State, a: Action, x: Handler)
    requires Inv(s) && Enabled(s, a) && NotBoth(s, x)
    ensures NotBoth(Apply(s, a), x)
  {
    hide Inv, Apply, Enabled;
    PhaseDue(s, a);
    TimerIs(s, a, x);
    if a.FireNext? && s.phase.Firing? && s.phase.due != [] { OnceTail(s.phase.due, x); }
  }

  /** A timeout is called once for each time it is set, if at all. */
  lemma ArmedStep(s: State, a: Action, x: Handler)
    requires Inv(s) && Enabled(s, a) && NotBoth(s, x)
    ensures One(Armed(Apply(s, a), x)) + One(Causes(s, a, Call(x, OnTimeout))) <= One(Armed(s, x)) + One(Sets(s, a, x))
  {
    hide Inv, Apply;
    PhaseDue(s, a);
    TimerIs(s, a, x);
    if a.FireNext? { OnceTail(s.phase.due, x); }
  }

  /** From any state on: as many handle_timeout calls as a timeout has been set, and
      one more if one was waiting; so none after it has been unset until it is set
      again. */
  lemma {:induction false} TimeoutsAreSet(s: State, acts: seq<Action>, s': State, x: Handler)
    requires Inv(s) && NotBoth(s, x) && FreshRun(s, acts, s')
    ensures CallsTo(s'.h.calls, Call(x, OnTimeout)) + One(Armed(s', x))
         <= CallsTo(s.h.calls, Call(x, OnTimeout)) + One(Armed(s, x)) + SetsIn(s, acts, x)
    decreases |acts|
  {
    hide Inv, NotBoth, Armed, Apply, Enabled, Fresh, Causes, CallsTo, Sets;
    if acts != [] {
      StepKeepsInv(s, acts[0]);
      StepNotBoth(s, acts[0], x);
      ArmedStep(s, acts[0], x);
      CallsToStep(s, acts[0], Call(x, OnTimeout));
      TimeoutsAreSet(Apply(s, acts[0]), acts[1..], s', x);
    }
  }

  /** Over every run: no timeout out of nowhere. */
  lemma TimeoutsWereSet(acts: seq<Action>, s: State, x: Handler)
    requires FreshRun(START, acts, s)
    ensures CallsTo(s.h.calls, Call(x, OnTimeout)) <= SetsIn(START, acts, x)
  {
    hide Inv, FreshRun, SetsIn;
    StartInv();
    TimeoutsAreSet(START, acts, s, x);
  }

  /** After its timeout has been unset a handler is not called for it. */
  lemma UnsetIsQuiet(s: State, a: Action, acts: seq<Action>, s': State, x: Handler)
    requires Inv(s) && BatchOk(s) && Enabled(s, a) && Fresh(s, a) && Known(s, x)
    requires a.DispatchNext? && s.q.batch[0].kind.TimeoutDel? && s.q.batch[0].io == x.io
    requires FreshRun(Apply(s, a), acts, s') && SetsIn(Apply(s, a), acts, x) == 0
    ensures CallsTo(s'.h.calls, Call(x, OnTimeout)) == CallsTo(s.h.calls, Call(x, OnTimeout))
  {
    hide Inv, Apply, FreshRun, SetsIn;
    StepKeepsInv(s, a);
    TimerIs(s, a, x);
    PhaseDue(s, a);
    CallsToStep(s, a, Call(x, OnTimeout));
    TimeoutsAreSet(Apply(s, a), acts, s', x);
    RunCallsGrow(Apply(s, a), acts, s');
    assert s'.h.calls == Apply(s, a).h.calls + s'.h.calls[|Apply(s, a).h.calls|..];
  }

  // ------------------------------------------------------------------- the shutdown

  lemma DispatchStops(s: State, a: Action)
    requires FlowWf(s) && Enabled(s, a) && a.DispatchNext?
    ensures Apply(s, a).reg.stopping <==> s.reg.stopping || s.q.batch[0] == EventOf(StopRun)
  {
    HeadWf(s);
    hide FlowWf;
  }

  lemma QuietStops(s: State, a: Action)
    requires Enabled(s, a) && !a.DispatchNext?
    ensures Apply(s, a).reg.stopping == s.reg.stopping
  {
    hide Dispatch, Process, ProcessRefused, EventOf, Emit;
  }

  /** The reactor begins to stop exactly when a stop event is dispatched, and goes on
      stopping. */
  lemma StopIs(s: State, a: Action)
    requires Inv(s) && Enabled(s, a)
    ensures Apply(s, a).reg.stopping <==> s.reg.stopping || Dispatches(s, a, Event(Stop, INVALID_IO_HANDLE, Null, true))
  {
    hide RegisterOnce, LivesOk, PhaseOk, FlowWf, TablesOk, Apply, Enabled;
    if a.DispatchNext? {
      DispatchStops(s, a);
      HasBatch(s, a);
    } else {
      QuietStops(s, a);
    }
  }

  lemma HasBatch(s: State, a: Action)
    requires Enabled(s, a) && a.DispatchNext?
    ensures s.q.batch != []
  {
  }

  lemma {:induction false} GoneWasTold(calls: seq<Call>, x: Handler)
    requires LifeOf(calls, x) == Gone
    ensures Call(x, OnRemoved) in calls || Call(x, OnShutdown) in calls
  {
    var n := |calls| - 1;
    if calls[n] != Call(x, OnRemoved) && calls[n] != Call(x, OnShutdown) {
      GoneWasTold(calls[..n], x);
    }
  }

  lemma {:induction false} NewWasNotTold(calls: seq<Call>, x: Handler)
    requires LifeOf(calls, x) == New
    ensures Call(x, OnRegistered) !in calls
  {
    if calls != [] {
      var n := |calls| - 1;
      assert calls == calls[..n] + [calls[n]];
      NewWasNotTold(calls[..n], x);
    }
  }

  /** When the reactor has stopped, every handler that was ever told of its
      registration has been told of its removal or of the shutdown. */
  lemma AllAreTold(acts: seq<Action>, s: State, x: Handler)
    requires FreshRun(START, acts, s) && s.phase.Stopped? && Call(x, OnRegistered) in s.h.calls
    ensures Call(x, OnRemoved) in s.h.calls || Call(x, OnShutdown) in s.h.calls
  {
    StartInv();
    RunKeepsInv(START, acts, s);
    assert LifeOk(s, x);
    if LifeOf(s.h.calls, x) == New { NewWasNotTold(s.h.calls, x); } else { GoneWasTold(s.h.calls, x); }
  }
}
