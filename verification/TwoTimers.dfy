/** The two levels of timers together: a session's own, and the reactor's entry
    for the session.  No timeout of a registered session is ever forgotten, and
    the reactor's entry is for the nearest of them. */
module TwoTimers {
  import Bytes
  import opened Events
  import opened Demuxer
  import opened Machine
  import opened Lifecycle
  import opened Order
  import opened Interest
  import opened Watched
  import opened SessionTimer
  import Timers

  // --------------------------------------------------- timer events in a queue

  predicate AboutTimer(e: Event, io: Fd) {
    (e.kind.TimeoutAdd? || e.kind.TimeoutDel?) && e.io == io
  }

  predicate NoTimer(q: seq<Event>, io: Fd) {
    forall i :: 0 <= i < |q| ==> !AboutTimer(q[i], io)
  }

  predicate AddLastAt(q: seq<Event>, io: Fd, want: nat, i: int) {
    && 0 <= i < |q|
    && q[i].kind.TimeoutAdd? && q[i].io == io && q[i].data == Msec(want)
    && NoTimer(q[i + 1..], io)
  }

  /** The last timer event about io in the queue is an ADD of that many
      milliseconds. */
  ghost predicate AddLast(q: seq<Event>, io: Fd, want: nat) {
    exists i :: AddLastAt(q, io, want, i)
  }

  lemma AddLastSnoc(q: seq<Event>, e: Event, io: Fd, want: nat)
    ensures AddLast(q, io, want) && !AboutTimer(e, io) ==> AddLast(q + [e], io, want)
    ensures e.kind.TimeoutAdd? && e.io == io && e.data == Msec(want) ==> AddLast(q + [e], io, want)
  {
    if AddLast(q, io, want) && !AboutTimer(e, io) {
      var i :| AddLastAt(q, io, want, i);
      assert (q + [e])[i + 1..] == q[i + 1..] + [e];
      assert AddLastAt(q + [e], io, want, i);
    }
    if e.kind.TimeoutAdd? && e.io == io && e.data == Msec(want) {
      assert (q + [e])[|q| + 1..] == [];
      assert AddLastAt(q + [e], io, want, |q|);
    }
  }

  lemma NoTimerSnoc(q: seq<Event>, e: Event, io: Fd)
    ensures NoTimer(q, io) && !AboutTimer(e, io) ==> NoTimer(q + [e], io)
  {
  }

  lemma AddLastTail(q: seq<Event>, io: Fd, want: nat)
    requires q != [] && AddLast(q, io, want)
    ensures || AddLast(q[1..], io, want)
            || (q[0].kind.TimeoutAdd? && q[0].io == io && q[0].data == Msec(want) && NoTimer(q[1..], io))
  {
    var i :| AddLastAt(q, io, want, i);
    if i > 0 {
      assert q[1..][i..] == q[i + 1..];
      assert AddLastAt(q[1..], io, want, i - 1);
    }
  }

  lemma NoTimerTail(q: seq<Event>, io: Fd)
    requires q != [] && NoTimer(q, io)
    ensures NoTimer(q[1..], io) && !AboutTimer(q[0], io)
  {
  }

  lemma AddLastJoin(q: seq<Event>, more: seq<Event>, io: Fd, want: nat)
    requires NoTimer(more, io)
    ensures AddLast(q, io, want) ==> AddLast(q + more, io, want)
    ensures NoTimer(q, io) ==> NoTimer(q + more, io)
  {
    if AddLast(q, io, want) {
      var i :| AddLastAt(q, io, want, i);
      assert (q + more)[i + 1..] == q[i + 1..] + more;
      assert AddLastAt(q + more, io, want, i);
    }
  }

  // ------------------------------------------------------------ the obligation

  /** The reactor holds a timeout for x: an entry in its timer, `want` milliseconds
      after the reading `d`, or the entry just taken out and its callback still to
      come. */
  predicate Held(s: State, x: Handler, want: nat, d: nat) {
    || (x in s.reg.timer && s.reg.timer[x] == d + want * Timers.MILLI)
    || (s.phase.Firing? && x in s.phase.due)
  }

  /** A timeout of x will come: the newest timer event in flight about it is an
      ADD, or there is none and the reactor holds one. */
  ghost predicate Coming(s: State, x: Handler, want: nat, d: nat) {
    || AddLast(s.q.waitq, x.io, want)
    || (NoTimer(s.q.waitq, x.io)
        && (AddLast(s.q.batch, x.io, want) || (NoTimer(s.q.batch, x.io) && Held(s, x, want, d))))
  }

  /** Other threads have nothing in flight about the timer of io. */
  ghost predicate Undisturbed(s: State, io: Fd) {
    NoTimer(s.q.pipe, io) && (s.phase.Reading? ==> NoTimer(s.phase.inbuf, io))
  }

  /** Calls of the reactor's own timer functions about io. */
  predicate SetsTimer(a: Action, io: Fd) {
    a.ApiCall? && (a.a.SetTimeout? || a.a.UnsetTimeout?) && a.a.x.io == io
  }

  lemma UndisturbedStep(s: State, a: Action, io: Fd)
    requires Enabled(s, a) && Undisturbed(s, io) && !SetsTimer(a, io)
    ensures Undisturbed(Apply(s, a), io)
  {
    if a.DispatchNext? {
      DispatchQueues(s.(q := s.q.(batch := s.q.batch[1..])), s.q.batch[0], a.now);
    } else if a.ApiCall? {
      NoTimerSnoc(s.q.pipe, EventOf(a.a), io);
    }
  }

  // --------------------------------------------------------- every reactor step

  /** A control event goes from one of the inputs to the end of the batch. */
  lemma ComingDrain(s: State, a: Action, x: Handler, want: nat, d: nat)
    requires FlowWf(s) && Enabled(s, a) && a.DrainNext? && Coming(s, x, want, d)
    ensures Coming(Apply(s, a), x, want, d)
  {
    var c := s.q.waitq[0];
    NumIn(s.q.waitq, c);
    assert WfEvent(c, s.h.owner) by { assert Flow(s, c) > 0; }
    DrainQueues(s, a);
    if AddLast(s.q.waitq, x.io, want) {
      AddLastTail(s.q.waitq, x.io, want);
    } else {
      NoTimerTail(s.q.waitq, x.io);
    }
    NoTimerSnoc(s.q.batch, c, x.io);
    AddLastSnoc(s.q.batch, c, x.io, want);
  }

  lemma DrainQueues(s: State, a: Action)
    requires Enabled(s, a) && a.DrainNext?
    ensures var s', c := Apply(s, a), s.q.waitq[0];
            && s'.reg == s.reg && s'.phase == s.phase && s'.q.waitq == s.q.waitq[1..]
            && s'.q.batch == if c.ret then s.q.batch + [c] else s.q.batch
  {
  }

  lemma ComingCtrl(s: State, a: Action, x: Handler, want: nat, d: nat)
    requires Enabled(s, a) && a.ReadCtrl? && Coming(s, x, want, d) && Undisturbed(s, x.io)
    ensures Coming(Apply(s, a), x, want, d)
  {
    AddLastSnoc(s.q.batch, s.phase.inbuf[0], x.io, want);
    NoTimerSnoc(s.q.batch, s.phase.inbuf[0], x.io);
  }

  lemma ComingReady(s: State, a: Action, x: Handler, want: nat, d: nat)
    requires Enabled(s, a) && a.ReadIo? && Coming(s, x, want, d)
    ensures Coming(Apply(s, a), x, want, d)
  {
    AddLastJoin(s.q.batch, Emit(s.phase.ready[0]), x.io, want);
  }

  lemma ComingPost(s: State, a: Action, x: Handler, want: nat, d: nat)
    requires Enabled(s, a) && (a.ApiCall? || a.Return?) && !SetsTimer(a, x.io) && Coming(s, x, want, d)
    ensures Coming(Apply(s, a), x, want, d)
  {
    var e := if a.ApiCall? then EventOf(a.a) else RemoveStaleEvent(s.frame.call.x.io);
    AddLastSnoc(s.q.waitq, e, x.io, want);
    NoTimerSnoc(s.q.waitq, e, x.io);
  }

  /** Dispatching a timer event of another descriptor, or any other event, leaves
      the entry of a handler that stays known. */
  lemma TimerStays(s: State, e: Event, now: nat, x: Handler)
    requires TablesOk(s.reg, s.h.owner) && WfEvent(e, s.h.owner) && Known(s, x)
    requires Known(Dispatch(s, e, now), x) && x in s.reg.timer && !AboutTimer(e, x.io)
    ensures x in Dispatch(s, e, now).reg.timer && Dispatch(s, e, now).reg.timer[x] == s.reg.timer[x]
  {
  }

  lemma AddDispatched(s: State, e: Event, now: nat, x: Handler, want: nat)
    requires Known(s, x) && e.kind.TimeoutAdd? && e.io == x.io && e.data == Msec(want) && want < Bytes.TWO32
    ensures x in Dispatch(s, e, now).reg.timer && Dispatch(s, e, now).reg.timer[x] == now + want * Timers.MILLI
  {
  }

  /** What dispatching the head of the batch does to the queues. */
  lemma DispatchShape(s: State, a: Action, io: Fd)
    requires FlowWf(s) && Enabled(s, a) && a.DispatchNext?
    ensures s.q.batch != [] && WfEvent(s.q.batch[0], s.h.owner)
    ensures var e, s1, s' := s.q.batch[0], s.(q := s.q.(batch := s.q.batch[1..])), Apply(s, a);
            && s' == Dispatch(s1, e, a.now) && s'.phase == s.phase && s.phase.Dispatching?
            && s'.q.waitq == s.q.waitq + Raised(s1, e) && s'.q.batch == s.q.batch[1..]
            && NoTimer(Raised(s1, e), io)
  {
    hide Dispatch, Raised;
    var e := s.q.batch[0];
    var s1 := s.(q := s.q.(batch := s.q.batch[1..]));
    NumIn(s.q.batch, e);
    assert WfEvent(e, s.h.owner) by { assert Flow(s, e) > 0; }
    DispatchQueues(s1, e, a.now);
    RaisedNoTimer(s1, e, io);
  }

  /** The head of the batch is dispatched: the entry stays, or is made now. */
  lemma ComingDispatch(s: State, a: Action, x: Handler, want: nat, d: nat) returns (d': nat)
    requires FlowWf(s) && TablesOk(s.reg, s.h.owner) && Enabled(s, a) && a.DispatchNext? && want < Bytes.TWO32
    requires Coming(s, x, want, d) && Known(s, x) && Known(Apply(s, a), x)
    ensures Coming(Apply(s, a), x, want, d') && (d' == d || d' == a.now)
  {
    hide Dispatch, Raised, TablesOk, AddLast, NoTimer, Apply, Enabled, FlowWf, WfEvent;
    d' := d;
    DispatchShape(s, a, x.io);
    var e := s.q.batch[0];
    var s1 := s.(q := s.q.(batch := s.q.batch[1..]));
    AddLastJoin(s.q.waitq, Raised(s1, e), x.io, want);
    if !AddLast(s.q.waitq, x.io, want) {
      if AddLast(s.q.batch, x.io, want) {
        AddLastTail(s.q.batch, x.io, want);
        if !AddLast(s.q.batch[1..], x.io, want) {
          AddDispatched(s1, e, a.now, x, want);
          d' := a.now;
        }
      } else {
        NoTimerTail(s.q.batch, x.io);
        TimerStays(s1, e, a.now, x);
      }
    }
  }

  lemma RaisedNoTimer(s: State, e: Event, io: Fd)
    ensures NoTimer(Raised(s, e), io)
  {
  }

  predicate Passive(a: Action) {
    a.ExtractDue? || a.FireDone? || a.BeginWait? || a.EnterDispatch? || a.Poll? || a.ReadPipe? || a.ReadDone? || a.DispatchDone?
  }

  lemma ComingPassive(s: State, a: Action, x: Handler, want: nat, d: nat)
    requires FrameOk(s) && Enabled(s, a) && Passive(a) && Coming(s, x, want, d)
    ensures Coming(Apply(s, a), x, want, d)
  {
  }

  lemma ComingFire(s: State, a: Action, x: Handler, want: nat, d: nat)
    requires Enabled(s, a) && a.FireNext? && Coming(s, x, want, d)
    ensures Coming(Apply(s, a), x, want, d) || Apply(s, a).frame == Busy(Call(x, OnTimeout))
  {
    if s.phase.due[0] != x && x in s.phase.due {
      assert s.phase.due == [s.phase.due[0]] + s.phase.due[1..];
    }
  }

  /** A coming timeout stays coming until its callback begins. */
  lemma ComingStep(s: State, a: Action, x: Handler, want: nat, d: nat) returns (d': nat)
    requires Inv3(s) && Enabled(s, a) && Undisturbed(s, x.io) && !SetsTimer(a, x.io) && want < Bytes.TWO32
    requires Coming(s, x, want, d) && Known(s, x) && Known(Apply(s, a), x) && !Ending(Apply(s, a))
    ensures d' == d || (a.DispatchNext? && d' == a.now)
    ensures Coming(Apply(s, a), x, want, d') || (s.frame.Free? && Apply(s, a).frame == Busy(Call(x, OnTimeout)))
  {
    hide Coming;
    d' := d;
    if a.DrainNext? { ComingDrain(s, a, x, want, d); }
    else if a.ReadCtrl? { ComingCtrl(s, a, x, want, d); }
    else if a.ReadIo? { ComingReady(s, a, x, want, d); }
    else if a.ApiCall? || a.Return? { ComingPost(s, a, x, want, d); }
    else if a.DispatchNext? { d' := ComingDispatch(s, a, x, want, d); }
    else if a.FireNext? { ComingFire(s, a, x, want, d); }
    else if Passive(a) { ComingPassive(s, a, x, want, d); }
  }

  // --------------------------------------------------- the reactor and sessions

  /** The reactor, the keys of every session, whether the session called for its
      timeout has yet to leave the drain loop, and the latest clock reading. */
  datatype World = World(s: State, keys: map<Handler, map<Key, nat>>, draining: bool, clock: nat)

  /** A session's timers are not locked: its operations run on the reactor thread,
      inside some callback. */
  datatype Move = ReactorStep(a: Action) | Session(x: Handler, op: Op)

  predicate InTimeout(w: World, x: Handler) {
    w.draining && w.s.frame == Busy(Call(x, OnTimeout))
  }

  function Request(x: Handler, r: Req): Action {
    ApiCall(if r.Add? then SetTimeout(x, r.msec) else UnsetTimeout(x), true)
  }

  /** The first and the last clock reading of an operation of a session. */
  function FirstReading(op: Op): nat {
    match op
    case Set(_, _, at, _, _) => at
    case Unset(_, now, _) => now
    case Extract(_, from, _) => from
    case Finish(now, _) => now
  }

  function LastReading(op: Op): nat {
    match op
    case Set(_, _, _, now, _) => now
    case Unset(_, now, _) => now
    case Extract(_, _, until) => until
    case Finish(now, _) => now
  }

  ghost predicate Can(w: World, m: Move) {
    match m
    case ReactorStep(a) =>
      && Enabled(w.s, a) && Attached(w.s, a) && (a.Return? ==> !w.draining)
      && (a.DispatchNext? ==> w.clock <= a.now)
      && forall x :: x in w.keys ==> !SetsTimer(a, x.io)
    case Session(x, op) =>
      && w.s.frame.Busy? && !w.s.phase.Stopped?
      && x in w.keys && x in w.s.h.attached && Owns(w.s.h, x)
      && SessionTimer.Possible(w.keys[x], op) && Exact(w.keys[x], op)
      && w.clock <= FirstReading(op) <= LastReading(op)
      && (op.Extract? || op.Finish? ==> InTimeout(w, x))
  }

  ghost function Asked(s: State, x: Handler, asks: seq<Req>): State
    requires s.frame.Busy? && !s.phase.Stopped? && |asks| <= 1
  {
    if asks == [] then s else Apply(s, Request(x, asks[0]))
  }

  ghost function Do(w: World, m: Move): World
    requires Can(w, m)
  {
    match m
    case ReactorStep(a) =>
      var s' := Apply(w.s, a);
      w.(s := s',
         draining := if w.s.frame.Free? && s'.frame.Busy? then s'.frame.call.cb.OnTimeout? && s'.frame.call.x in w.keys else w.draining,
         clock := if a.DispatchNext? then a.now else w.clock)
    case Session(x, op) =>
      World(Asked(w.s, x, Asks(w.keys[x], op)), w.keys[x := After(w.keys[x], op)], w.draining && !op.Finish?, LastReading(op))
  }

  ghost predicate WorldRun(w: World, ms: seq<Move>, w': World)
    decreases |ms|
  {
    if ms == [] then w == w' else Can(w, ms[0]) && WorldRun(Do(w, ms[0]), ms[1..], w')
  }

  ghost predicate Initial(w: World) {
    w.s == START && !w.draining && forall x :: x in w.keys ==> w.keys[x] == map[]
  }

  /** A registered session with keys waiting. */
  ghost predicate Waiting(w: World, x: Handler) {
    x in w.keys && w.keys[x] != map[] && Known(w.s, x) && !Ending(w.s)
  }

  /** A timeout is on its way for the nearest of the keys, as read at `r` by the
      session; the reactor makes, or has made, its entry at a later reading `d`. */
  ghost predicate Timely(w: World, x: Handler, r: nat, d: nat)
    requires x in w.keys
  {
    var want := Timers.MinTimeout(w.keys[x], r);
    want >= 0 && r <= d <= w.clock && Coming(w.s, x, want, d)
  }

  ghost predicate Assured(w: World, x: Handler)
    requires x in w.keys
  {
    InTimeout(w, x) || exists r, d :: Timely(w, x, r, d)
  }

  ghost predicate WInv(w: World) {
    && Inv3(w.s)
    && (forall x :: x in w.keys ==> Undisturbed(w.s, x.io))
    && (forall x :: x in w.keys && x !in w.s.h.attached ==> w.keys[x] == map[])
    && (w.draining ==> w.s.frame.Busy?)
    && (forall x :: Waiting(w, x) ==> Assured(w, x))
  }

  lemma WantIsSmall(m: map<Key, nat>, now: nat)
    ensures Timers.MinTimeout(m, now) < Bytes.TWO32
  {
  }

  lemma KeepTimely(w: World, a: Action, x: Handler, r: nat, d: nat)
    requires Inv3(w.s) && Can(w, ReactorStep(a)) && x in w.keys && Undisturbed(w.s, x.io)
    requires Known(w.s, x) && Known(Apply(w.s, a), x) && !Ending(Apply(w.s, a))
    requires Timely(w, x, r, d)
    ensures Assured(Do(w, ReactorStep(a)), x)
  {
    hide Timers.MinTimeout, Coming, Undisturbed, Inv3, Enabled, Apply, Attached;
    var w' := Do(w, ReactorStep(a));
    var want := Timers.MinTimeout(w.keys[x], r);
    WantIsSmall(w.keys[x], r);
    var d' := ComingStep(w.s, a, x, want, d);
    if Coming(w'.s, x, want, d') {
      assert Timely(w', x, r, d');
    }
  }

  lemma KeepPromise(w: World, a: Action, x: Handler)
    requires Inv3(w.s) && Can(w, ReactorStep(a)) && Waiting(Do(w, ReactorStep(a)), x)
    requires Undisturbed(w.s, x.io) && (x !in w.s.h.attached ==> w.keys[x] == map[])
    requires (w.draining ==> w.s.frame.Busy?) && (Waiting(w, x) ==> Assured(w, x))
    ensures Assured(Do(w, ReactorStep(a)), x)
  {
    hide Timely, Undisturbed, Attached, IoOk, StaleOk, EntriesOk, FrameOk, WriteOk;
    RegisteredBefore(w.s, a, x);
    assert Waiting(w, x);
    if InTimeout(w, x) {
      BusyStays(w.s, a);
    } else {
      var r, d :| Timely(w, x, r, d);
      KeepTimely(w, a, x, r, d);
    }
  }

  lemma RegisteredBefore(s: State, a: Action, x: Handler)
    requires Inv(s) && Enabled(s, a) && x in s.h.attached
    requires Known(Apply(s, a), x) && !Ending(Apply(s, a))
    ensures Known(s, x) && !Ending(s)
  {
    if Ending(s) { EndingStays(s, a); }
    if a.DispatchNext? { KnownBefore(s, a, x); } else { HandlersElse(s, a); }
  }

  lemma BusyStays(s: State, a: Action)
    requires Enabled(s, a) && s.frame.Busy? && !a.Return?
    ensures Apply(s, a).frame == s.frame
  {
  }

  lemma KeepReactor(w: World, a: Action)
    requires WInv(w) && Can(w, ReactorStep(a))
    ensures WInv(Do(w, ReactorStep(a)))
  {
    var w' := Do(w, ReactorStep(a));
    StepKeepsInv3(w.s, a);
    HistoryGrows(w.s, a);
    forall x | x in w'.keys
      ensures Undisturbed(w'.s, x.io)
    {
      UndisturbedStep(w.s, a, x.io);
    }
    if w.s.frame.Busy? && !a.Return? { BusyStays(w.s, a); }
    forall x | Waiting(w', x)
      ensures Assured(w', x)
    {
      KeepPromise(w, a, x);
    }
  }

  /** What a session asks of the reactor. */
  lemma AskedKeeps(s: State, x: Handler, asks: seq<Req>)
    requires Inv3(s) && s.frame.Busy? && !s.phase.Stopped? && |asks| <= 1 && x in s.h.attached && Owns(s.h, x)
    ensures Inv3(Asked(s, x, asks))
    ensures var s' := Asked(s, x, asks); s'.h == s.h && s'.reg == s.reg && s'.phase == s.phase && s'.frame == s.frame
    ensures forall io: Fd :: Undisturbed(s, io) ==> Undisturbed(Asked(s, x, asks), io)
  {
    hide Inv3, RaiseAcross, NoTimer;
    if asks != [] {
      StepKeepsInv3(s, Request(x, asks[0]));
    }
  }

  lemma AskedOthers(s: State, x: Handler, asks: seq<Req>, y: Handler, want: nat, d: nat)
    requires s.frame.Busy? && !s.phase.Stopped? && |asks| <= 1 && x.io != y.io && Coming(s, y, want, d)
    ensures Coming(Asked(s, x, asks), y, want, d)
  {
    if asks != [] {
      ComingPost(s, Request(x, asks[0]), y, want, d);
    }
  }

  lemma AskedComes(s: State, x: Handler, asks: seq<Req>, d: nat)
    requires s.frame.Busy? && !s.phase.Stopped? && |asks| == 1 && asks[0].Add?
    ensures Coming(Asked(s, x, asks), x, asks[0].msec, d)
  {
    AddLastSnoc(s.q.waitq, EventOf(SetTimeout(x, asks[0].msec)), x.io, asks[0].msec);
  }

  lemma LivesAndTables(s: State)
    requires Inv3(s)
    ensures LivesOk(s) && TablesOk(s.reg, s.h.owner)
  {
    hide IoOk, StaleOk, EntriesOk, AskersOk, FrameOk, WriteOk, QueuesOk, InOrder;
  }

  lemma KeepSession(w: World, y: Handler, op: Op)
    requires WInv(w) && Can(w, Session(y, op))
    ensures WInv(Do(w, Session(y, op)))
  {
    hide Inv3, LivesOk, TablesOk, Undisturbed, Exact, Assured, Asked;
    var w' := Do(w, Session(y, op));
    LivesAndTables(w.s);
    AskedKeeps(w.s, y, Asks(w.keys[y], op));
    forall x | Waiting(w', x)
      ensures Assured(w', x)
    {
      SessionPromise(w, y, op, x);
    }
  }

  lemma SessionPromise(w: World, y: Handler, op: Op, x: Handler)
    requires LivesOk(w.s) && TablesOk(w.s.reg, w.s.h.owner) && Can(w, Session(y, op)) && Waiting(Do(w, Session(y, op)), x)
    requires Waiting(w, x) ==> Assured(w, x)
    requires var s' := Asked(w.s, y, Asks(w.keys[y], op)); s'.reg == w.s.reg && s'.phase == w.s.phase && s'.frame == w.s.frame
    ensures Assured(Do(w, Session(y, op)), x)
  {
    if x == y {
      OwnPromise(w, y, op);
    } else {
      assert Waiting(w, x);
      OtherPromise(w, y, op, x);
    }
  }

  lemma OtherPromise(w: World, y: Handler, op: Op, x: Handler)
    requires TablesOk(w.s.reg, w.s.h.owner) && Can(w, Session(y, op)) && x != y
    requires Known(w.s, x) && x in w.keys && Assured(w, x)
    requires Asked(w.s, y, Asks(w.keys[y], op)).frame == w.s.frame
    ensures Assured(Do(w, Session(y, op)), x)
  {
    hide Exact, Coming, Timers.MinTimeout;
    if !InTimeout(w, x) {
      var r, d :| Timely(w, x, r, d);
      AskedOthers(w.s, y, Asks(w.keys[y], op), x, Timers.MinTimeout(w.keys[x], r), d);
      assert Timely(Do(w, Session(y, op)), x, r, d);
    }
  }

  /** What a session asks for is the minimum of the keys it then has. */
  lemma AsksNearest(m: map<Key, nat>, op: Op)
    requires SessionTimer.Possible(m, op) && Exact(m, op) && !op.Extract? && After(m, op) != map[]
    ensures Timers.MinTimeout(After(m, op), LastReading(op)) >= 0
    ensures Asks(m, op) == [Add(Timers.MinTimeout(After(m, op), LastReading(op)))]
  {
    MinNegative(After(m, op), LastReading(op));
  }

  lemma OwnPromise(w: World, y: Handler, op: Op)
    requires (Waiting(w, y) ==> Assured(w, y)) && Can(w, Session(y, op)) && Waiting(Do(w, Session(y, op)), y)
    requires var s' := Asked(w.s, y, Asks(w.keys[y], op)); s'.reg == w.s.reg && s'.phase == w.s.phase && s'.frame == w.s.frame
    ensures Assured(Do(w, Session(y, op)), y)
  {
    hide Exact, Coming, Timers.MinTimeout;
    if !op.Extract? {
      var r := LastReading(op);
      AsksNearest(w.keys[y], op);
      AskedComes(w.s, y, Asks(w.keys[y], op), r);
      assert Timely(Do(w, Session(y, op)), y, r, r);
    }
  }

  lemma {:induction false} WorldKeeps(w: World, ms: seq<Move>, w': World)
    requires WInv(w) && WorldRun(w, ms, w')
    ensures WInv(w')
    decreases |ms|
  {
    if ms != [] {
      match ms[0] {
        case ReactorStep(a) => KeepReactor(w, a);
        case Session(x, op) => KeepSession(w, x, op);
      }
      WorldKeeps(Do(w, ms[0]), ms[1..], w');
    }
  }

  /** Over every run of the reactor and its sessions: a registered session with
      keys waiting has a newest ADD on its way to the dispatcher, or nothing on
      its way and an entry in the reactor's timer (or just taken from it), and in
      either case for the nearest of its keys; or it is inside handle_timeout. */
  lemma NoLostTimeout(w: World, ms: seq<Move>, w': World, x: Handler)
    requires Initial(w) && WorldRun(w, ms, w') && Waiting(w', x)
    ensures Assured(w', x)
  {
    StartInv3();
    WorldKeeps(w, ms, w');
  }

  /** So whenever the reactor goes to wait with nothing queued, its own timer has
      an entry for every such session: the minimum of the session's keys at one
      reading, counted from a later one. */
  lemma RestMeansTimed(w: World, ms: seq<Move>, w': World, x: Handler) returns (r: nat, d: nat)
    requires Initial(w) && WorldRun(w, ms, w') && Waiting(w', x)
    requires w'.s.phase.Draining? && w'.s.frame.Free? && w'.s.q.waitq == [] && w'.s.q.batch == []
    ensures r <= d <= w'.clock && x in w'.s.reg.timer
    ensures w'.s.reg.timer[x] == d + Timers.MinTimeout(w'.keys[x], r) * Timers.MILLI
  {
    hide Timers.MinTimeout;
    NoLostTimeout(w, ms, w', x);
    r, d :| Timely(w', x, r, d);
  }

  /** That entry is at most as late after any deadline of the session as the ADD
      was under way, and no whole millisecond before the first; provided no
      deadline was then 2^31 ms away or more. */
  lemma EntryMeetsNearest(w: World, ms: seq<Move>, w': World, x: Handler) returns (r: nat, d: nat)
    requires Initial(w) && WorldRun(w, ms, w') && Waiting(w', x)
    requires w'.s.phase.Draining? && w'.s.frame.Free? && w'.s.q.waitq == [] && w'.s.q.batch == []
    ensures r <= d <= w'.clock && x in w'.s.reg.timer
    ensures Near(w'.keys[x], r) && (forall k :: k in w'.keys[x] ==> r < w'.keys[x][k] + Timers.TWO31 * Timers.MILLI) ==>
              && (forall k :: k in w'.keys[x] ==> w'.s.reg.timer[x] == d || w'.s.reg.timer[x] <= w'.keys[x][k] + (d - r))
              && (exists k :: k in w'.keys[x] && w'.keys[x][k] < w'.s.reg.timer[x] + Timers.MILLI)
  {
    hide Timers.MinTimeout, WorldRun, Initial;
    r, d := RestMeansTimed(w, ms, w', x);
    var m := w'.keys[x];
    if Near(m, r) && forall k :: k in m ==> r < m[k] + Timers.TWO31 * Timers.MILLI {
      WaitMeetsNearest(m, r);
      MinNegative(m, r);
      var first :| first in m && m[first] < r + (Timers.MinTimeout(m, r) + 1) * Timers.MILLI;
    }
  }
}
