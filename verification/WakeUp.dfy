/** The reactor and the TCP output path together: a byte accepted by send never
    waits without something on its way to get it out. */
module WakeUp {
  import opened Events
  import opened Demuxer
  import opened Machine
  import opened Lifecycle
  import opened Order
  import opened Interest
  import opened Watched
  import opened TcpOutput

  // ------------------------------------------------------------------- the token

  /** A registration queued at w with no removal of its bit behind it. */
  predicate SurvivesFrom(q: seq<Event>, w: Event, r: Event, i: int) {
    0 <= i < |q| && q[i] == w && forall j :: i < j < |q| ==> q[j] != r
  }

  ghost predicate Survives(q: seq<Event>, w: Event, r: Event) {
    exists i :: SurvivesFrom(q, w, r, i)
  }

  predicate Watching(s: State, x: Handler) {
    x.io in s.t.user && s.t.user[x.io].wr && RemoveWriteEvent(x.io) !in s.q.waitq
  }

  ghost predicate Asked(s: State, x: Handler) {
    var w := EventOf(Writable(x));
    || Survives(s.q.waitq, w, RemoveWriteEvent(x.io))
    || w in s.q.pipe
    || (s.phase.Reading? && w in s.phase.inbuf)
  }

  /** What will bring the next OnOutput: WRITE interest that no queued removal is
      about to clear, a request for it that survives the queue, or the event. */
  ghost predicate Token(s: State, x: Handler) {
    Watching(s, x) || Asked(s, x) || Flow(s, WriteEvent(x.io)) > 0
  }

  lemma SurvivesAppend(q: seq<Event>, w: Event, r: Event, more: seq<Event>)
    requires Survives(q, w, r) && r !in more
    ensures Survives(q + more, w, r)
  {
    var i :| SurvivesFrom(q, w, r, i);
    assert SurvivesFrom(q + more, w, r, i);
  }

  lemma SurvivesTail(q: seq<Event>, w: Event, r: Event)
    requires Survives(q, w, r) && w != r
    ensures Survives(q[1..], w, r) || (q[0] == w && r !in q[1..])
  {
    var i :| SurvivesFrom(q, w, r, i);
    if i > 0 {
      assert SurvivesFrom(q[1..], w, r, i - 1);
    } else {
      assert forall j :: 0 <= j < |q| - 1 ==> q[1..][j] == q[j + 1];
    }
  }

  lemma SurvivesLast(q: seq<Event>, w: Event, r: Event)
    ensures Survives(q + [w], w, r)
  {
    assert SurvivesFrom(q + [w], w, r, |q|);
  }

  // --------------------------------------------- what happens to it at each step

  /** A control event about a served handler leaves its WRITE bit set, unless it is
      the one-shot removal; a request for it sets the bit unless refused. */
  lemma CtrlWatches(s: State, c: Event, k: Answers, x: Handler)
    requires FlowWf(s) && TablesOk(s.reg, s.h.owner) && StaleOk(s) && Served(s, x) && Flow(s, c) > 0 && !IsIo(c.kind)
    requires c == EventOf(Writable(x)) ==> !ProcessRefused(s.t, c, k)
    requires c == EventOf(Writable(x)) || (x.io in s.t.user && s.t.user[x.io].wr)
    requires c != RemoveWriteEvent(x.io)
    ensures var t' := Process(s.t, c, k); x.io in t'.user && t'.user[x.io].wr
  {
    assert WfEvent(c, s.h.owner);
    if c.io != x.io {
      ProcessIsLocal(s.t, c, k, x.io);
    } else {
      assert c != RemoveStaleEvent(x.io);
      assert c != EventOf(Remove(x));
    }
  }

  lemma DrainEffect(s: State, a: Action)
    requires QueuesOk(s) && Enabled(s, a) && a.DrainNext?
    ensures var s', c := Apply(s, a), s.q.waitq[0];
            && s'.t == Process(s.t, c, a.k) && s'.q.pipe == s.q.pipe && s'.phase == s.phase
            && s.q.waitq == [c] + s'.q.waitq
            && (ProcessRefused(s.t, c, a.k) ==> c.io in s'.h.refused)
            && Flow(s, c) > 0 && !IsIo(c.kind)
  {
    NumIn(s.q.waitq, s.q.waitq[0]);
  }

  lemma CtrlEffect(s: State, a: Action)
    requires QueuesOk(s) && Enabled(s, a) && a.ReadCtrl?
    ensures var s', c := Apply(s, a), s.phase.inbuf[0];
            && s'.t == Process(s.t, c, a.k) && s'.q.pipe == s.q.pipe && s'.q.waitq == s.q.waitq == []
            && s'.phase.Reading? && (forall e :: e in s.phase.inbuf ==> e == c || e in s'.phase.inbuf)
            && (ProcessRefused(s.t, c, a.k) ==> c.io in s'.h.refused)
            && Flow(s, c) > 0 && !IsIo(c.kind) && !c.kind.RemoveWrite?
  {
    NumIn(s.phase.inbuf, s.phase.inbuf[0]);
    assert s.phase.inbuf == [s.phase.inbuf[0]] + s.phase.inbuf[1..];
  }

  lemma TokenDrain(s: State, a: Action, x: Handler)
    requires FlowWf(s) && TablesOk(s.reg, s.h.owner) && StaleOk(s) && QueuesOk(s) && Enabled(s, a) && a.DrainNext?
    requires (Watching(s, x) || Asked(s, x)) && Served(s, x) && x.io !in Apply(s, a).h.refused
    ensures Watching(Apply(s, a), x) || Asked(Apply(s, a), x)
  {
    hide Apply, Flow, FlowWf, TablesOk, StaleOk, QueuesOk, Process, ProcessRefused, Served, Survives;
    var c, s' := s.q.waitq[0], Apply(s, a);
    var w, r := EventOf(Writable(x)), RemoveWriteEvent(x.io);
    DrainEffect(s, a);
    NotRefused(s.t, c, a.k, s'.h.refused, x);
    if Watching(s, x) {
      CtrlWatches(s, c, a.k, x);
    } else if Survives(s.q.waitq, w, r) {
      SurvivesTail(s.q.waitq, w, r);
      if !Survives(s'.q.waitq, w, r) {
        CtrlWatches(s, c, a.k, x);
      }
    }
  }

  lemma TokenCtrl(s: State, a: Action, x: Handler)
    requires FlowWf(s) && TablesOk(s.reg, s.h.owner) && StaleOk(s) && QueuesOk(s) && Enabled(s, a) && a.ReadCtrl?
    requires (Watching(s, x) || Asked(s, x)) && Served(s, x) && x.io !in Apply(s, a).h.refused
    ensures Watching(Apply(s, a), x) || Asked(Apply(s, a), x)
  {
    hide FlowWf, TablesOk, StaleOk, Watching, Asked, Served, ProcessRefused, EventOf;
    CtrlEffect(s, a);
    NotRefused(s.t, s.phase.inbuf[0], a.k, Apply(s, a).h.refused, x);
    TokenCtrlTo(s, Apply(s, a), s.phase.inbuf[0], a.k, x);
  }

  lemma NotRefused(t: Tables, c: Event, k: Answers, refused: set<Fd>, x: Handler)
    requires ProcessRefused(t, c, k) ==> c.io in refused
    requires x.io !in refused
    ensures c == EventOf(Writable(x)) ==> !ProcessRefused(t, c, k)
  {
  }

  lemma TokenCtrlTo(s: State, s': State, c: Event, k: Answers, x: Handler)
    requires FlowWf(s) && TablesOk(s.reg, s.h.owner) && StaleOk(s)
    requires s'.t == Process(s.t, c, k) && s'.q.pipe == s.q.pipe && s'.q.waitq == s.q.waitq == []
    requires s.phase.Reading? && s'.phase.Reading? && (forall e :: e in s.phase.inbuf ==> e == c || e in s'.phase.inbuf)
    requires Flow(s, c) > 0 && !IsIo(c.kind) && !c.kind.RemoveWrite?
    requires c == EventOf(Writable(x)) ==> !ProcessRefused(s.t, c, k)
    requires (Watching(s, x) || Asked(s, x)) && Served(s, x)
    ensures Watching(s', x) || Asked(s', x)
  {
    if Watching(s, x) || c == EventOf(Writable(x)) {
      CtrlWatches(s, c, k, x);
    } else {
      AskedStays(s, s', c, x);
    }
  }

  lemma AskedStays(s: State, s': State, c: Event, x: Handler)
    requires s'.q.pipe == s.q.pipe && s.q.waitq == []
    requires s.phase.Reading? && s'.phase.Reading? && (forall e :: e in s.phase.inbuf ==> e == c || e in s'.phase.inbuf)
    requires Asked(s, x) && c != EventOf(Writable(x))
    ensures Asked(s', x)
  {
  }

  lemma TokenDispatch(s: State, a: Action, x: Handler)
    requires FlowWf(s) && TablesOk(s.reg, s.h.owner) && Enabled(s, a) && a.DispatchNext?
    requires (Watching(s, x) || Asked(s, x)) && s.q.batch[0] != WriteEvent(x.io)
    ensures Watching(Apply(s, a), x) || Asked(Apply(s, a), x)
  {
    var e := s.q.batch[0];
    var s1 := s.(q := s.q.(batch := s.q.batch[1..]));
    NumIn(s.q.batch, e);
    assert WfEvent(e, s.h.owner) by { assert Flow(s, e) > 0; }
    DispatchQueues(s1, e, a.now);
    DispatchKeepsTables(s1, e, a.now);
    RaisedRemoval(s1, e, x.io);
    if Survives(s.q.waitq, EventOf(Writable(x)), RemoveWriteEvent(x.io)) {
      SurvivesAppend(s.q.waitq, EventOf(Writable(x)), RemoveWriteEvent(x.io), Raised(s1, e));
    }
  }

  lemma RaisedRemoval(s: State, e: Event, io: Fd)
    requires TablesOk(s.reg, s.h.owner) && WfEvent(e, s.h.owner) && e != WriteEvent(io)
    ensures RemoveWriteEvent(io) !in Raised(s, e)
  {
  }

  /** A reported readiness stays on its way until it is dispatched. */
  lemma WriteEventStep(s: State, a: Action, x: Handler)
    requires FrameOk(s) && Enabled(s, a) && Known(s, x) && Flow(s, WriteEvent(x.io)) > 0
    requires x.io in s.reg.handlers
    ensures Flow(Apply(s, a), WriteEvent(x.io)) > 0 || (s.frame.Free? && Apply(s, a).frame == Busy(Call(x, OnOutput)))
  {
    hide Flow, Num, Raised, Dispatch, EmitAll, Emit, Ctrl;
    NumNone(WriteEvent(x.io));
    FlowStep(s, a, WriteEvent(x.io));
    if a.DispatchNext? && s.q.batch[0] == WriteEvent(x.io) {
      DispatchCalls(s.(q := s.q.(batch := s.q.batch[1..])), x, a.now);
    }
  }

  lemma DispatchCalls(s: State, x: Handler, now: nat)
    requires Known(s, x)
    ensures Dispatch(s, WriteEvent(x.io), now).frame == Busy(Call(x, OnOutput))
  {
  }

  lemma TokenQueues(s: State, a: Action, x: Handler)
    requires QueuesOk(s) && Enabled(s, a) && Attached(s, a)
    requires !a.DrainNext? && !a.ReadCtrl? && !a.DispatchNext?
    requires Watching(s, x) || Asked(s, x)
    requires Apply(s, a).t == s.t
    ensures Watching(Apply(s, a), x) || Asked(Apply(s, a), x)
  {
    var w, r := EventOf(Writable(x)), RemoveWriteEvent(x.io);
    if a.ApiCall? || a.Return? {
      var more := WaitqGrows(s, a);
      assert r !in more;
      if Survives(s.q.waitq, w, r) {
        SurvivesAppend(s.q.waitq, w, r, more);
      }
    } else {
      QueuesKept(s, a, x);
    }
  }

  lemma WaitqGrows(s: State, a: Action) returns (more: seq<Event>)
    requires Enabled(s, a) && (a.ApiCall? || a.Return?)
    ensures var s' := Apply(s, a);
            && s'.q.waitq == s.q.waitq + more
            && (forall e :: e in s.q.pipe ==> e in s'.q.pipe)
            && s'.phase == s.phase
            && forall e :: e in more ==> !e.kind.RemoveWrite?
  {
    if a.ApiCall? {
      more := if a.onReactor && Accepted(EventOf(a.a)) then [EventOf(a.a)] else [];
    } else {
      var e := RemoveStaleEvent(s.frame.call.x.io);
      more := if s.frame.call.cb.OnShutdown? && Accepted(e) then [e] else [];
    }
  }

  lemma QueuesKept(s: State, a: Action, x: Handler)
    requires Enabled(s, a)
    requires !a.ApiCall? && !a.Return? && !a.DrainNext? && !a.ReadCtrl? && !a.DispatchNext?
    ensures Apply(s, a).q.waitq == s.q.waitq
    ensures var w := EventOf(Writable(x));
            w in s.q.pipe || (s.phase.Reading? && w in s.phase.inbuf) ==>
              w in Apply(s, a).q.pipe || (Apply(s, a).phase.Reading? && w in Apply(s, a).phase.inbuf)
  {
    if a.ReadPipe? {
      assert s.q.pipe == s.q.pipe[..a.n] + s.q.pipe[a.n..];
    }
  }

  /** The token is spent only on the callback it stands for. */
  lemma TokenStep(s: State, a: Action, x: Handler)
    requires Inv3(s) && Enabled(s, a) && Attached(s, a)
    requires Token(s, x) && Served(s, x) && x.io !in Apply(s, a).h.refused
    ensures Token(Apply(s, a), x) || (s.frame.Free? && Apply(s, a).frame == Busy(Call(x, OnOutput)))
  {
    hide FlowWf, TablesOk, LivesOk, RegisterOnce, PhaseOk, QueuesOk, WriteOk, IoOk, StaleOk, EntriesOk, FrameOk, Watching, Asked, Apply, Attached;
    if Flow(s, WriteEvent(x.io)) > 0 { WriteEventStep(s, a, x); }
    else if a.DrainNext? { TokenDrain(s, a, x); }
    else if a.ReadCtrl? { TokenCtrl(s, a, x); }
    else if a.DispatchNext? {
      NumIn(s.q.batch, WriteEvent(x.io));
      TokenDispatch(s, a, x);
    } else {
      OtherStepsKeepTables(s, a);
      TokenQueues(s, a, x);
    }
  }

  /** Service only ends: by a removal asked for, or by the shutdown. */
  lemma ServedBefore(s: State, a: Action, x: Handler)
    requires Inv3(s) && Enabled(s, a) && Attached(s, a)
    requires Served(Apply(s, a), x) && x in s.h.attached
    ensures Served(s, x)
  {
    hide FlowWf, TablesOk, LivesOk, RegisterOnce, PhaseOk, QueuesOk, WriteOk, IoOk, StaleOk, EntriesOk, Attached, Flow, Dispatch;
    if Ending(s) { EndingStays(s, a); }
    FlowStep(s, a, EventOf(Remove(x)));
    if a.DispatchNext? {
      KnownBefore(s, a, x);
    } else {
      HandlersElse(s, a);
    }
  }

  // ------------------------------------------------- the reactor and the senders

  /** Where handle_output stands: not running, not yet at the buffers, or past
      them with register_writable still to call. */
  datatype Stage = Quiet | Begun | Taking

  /** The reactor, the output path of every TCP handler, the handlers whose last
      ::send failed for good, and the threads between the append in send and its
      register_writable.  Thread 0 is the reactor thread. */
  datatype World = World(s: State, outs: map<Handler, Out>, failed: set<Handler>, threads: map<nat, Handler>, stage: Stage)

  datatype Move =
    | ReactorStep(a: Action)
    | Append(t: nat, x: Handler, m: Msg)
    | PostWrite(t: nat)
    | Look(r: Outcome)
    | Rearm

  /** The reactor thread is inside handle_output of a TCP handler. */
  predicate InOutput(s: State, outs: map<Handler, Out>) {
    s.frame.Busy? && s.frame.call.cb.OnOutput? && s.frame.call.x in outs
  }

  function WriteCall(x: Handler, t: nat): Action {
    ApiCall(Writable(x), t == 0)
  }

  ghost predicate Can(w: World, m: Move) {
    match m
    case ReactorStep(a) =>
      && Enabled(w.s, a) && Attached(w.s, a) && (a.Return? ==> 0 !in w.threads && w.stage.Quiet?)
      && forall t :: t in w.threads ==> !Registers(a, w.threads[t].io)
    case Append(t, x, _) =>
      && t !in w.threads && x in w.outs && x in w.s.h.attached && Owns(w.s.h, x)
      && (t == 0 ==> w.s.frame.Busy?)
    case PostWrite(t) => t in w.threads && Enabled(w.s, WriteCall(w.threads[t], t))
    case Look(r) => InOutput(w.s, w.outs) && w.stage.Begun? && 0 !in w.threads && (HasBuffer(w.outs[w.s.frame.call.x]) ==> Possible(w.outs[w.s.frame.call.x], r))
    case Rearm => InOutput(w.s, w.outs) && w.stage.Taking? && 0 !in w.threads && Enabled(w.s, WriteCall(w.s.frame.call.x, 0))
  }

  ghost function Do(w: World, m: Move): World
    requires Can(w, m)
  {
    match m
    case ReactorStep(a) =>
      var s' := Apply(w.s, a);
      w.(s := s', stage := if w.s.frame.Free? && InOutput(s', w.outs) then Begun else w.stage)
    case Append(t, x, m) => w.(outs := w.outs[x := Send(w.outs[x], m)], threads := w.threads[t := x])
    case PostWrite(t) => w.(s := Apply(w.s, WriteCall(w.threads[t], t)), threads := w.threads - {t})
    case Look(r) =>
      var x := w.s.frame.call.x;
      var o := w.outs[x];
      w.(outs := w.outs[x := Output(o, r)],
         failed := if HasBuffer(o) && r.Failed? then w.failed + {x} else w.failed,
         stage := if Rearms(o, r) then Taking else Quiet)
    case Rearm => w.(s := Apply(w.s, WriteCall(w.s.frame.call.x, 0)), stage := Quiet)
  }

  ghost predicate WorldRun(w: World, ms: seq<Move>, w': World)
    decreases |ms|
  {
    if ms == [] then w == w' else Can(w, ms[0]) && WorldRun(Do(w, ms[0]), ms[1..], w')
  }

  ghost predicate Initial(w: World) {
    && w.s == START && w.failed == {} && w.threads == map[] && w.stage.Quiet?
    && forall x :: x in w.outs ==> w.outs[x] == EMPTY
  }

  /** Bytes of x are waiting, and the reactor is in a position to send them. */
  ghost predicate Owed(w: World, x: Handler) {
    && x in w.outs && HasBuffer(w.outs[x])
    && Served(w.s, x) && x.io !in w.s.h.refused && x !in w.failed
  }

  ghost predicate Sending(w: World, x: Handler) {
    exists t :: t in w.threads && w.threads[t] == x
  }

  ghost predicate Promised(w: World, x: Handler) {
    || Token(w.s, x)
    || Sending(w, x)
    || (!w.stage.Quiet? && InOutput(w.s, w.outs) && w.s.frame.call.x == x)
  }

  ghost predicate ThreadsOk(w: World) {
    && (forall t :: t in w.threads ==> w.threads[t] in w.outs && w.threads[t] in w.s.h.attached && Owns(w.s.h, w.threads[t]))
    && (!w.stage.Quiet? ==> InOutput(w.s, w.outs) && w.s.frame.call.x in w.s.h.attached && Known(w.s, w.s.frame.call.x))
    && (forall x :: x in w.outs && x !in w.s.h.attached ==> !HasBuffer(w.outs[x]))
  }

  ghost predicate WInv(w: World) {
    && Inv3(w.s)
    && ThreadsOk(w)
    && forall x :: Owed(w, x) ==> Promised(w, x)
  }

  /** A request posted now is a token at once. */
  lemma PostGivesToken(s: State, x: Handler, t: nat)
    requires FrameOk(s) && x.io in s.h.owner && Enabled(s, WriteCall(x, t))
    ensures Token(Apply(s, WriteCall(x, t)), x)
  {
    var e := EventOf(Writable(x));
    if t == 0 {
      SurvivesLast(s.q.waitq, e, RemoveWriteEvent(x.io));
    }
  }

  lemma WriteCallOk(s: State, x: Handler, t: nat)
    requires Inv3(s) && x in s.h.attached && Owns(s.h, x) && Enabled(s, WriteCall(x, t))
    ensures Attached(s, WriteCall(x, t)) && Inv3(Apply(s, WriteCall(x, t)))
    ensures Token(Apply(s, WriteCall(x, t)), x)
    ensures var s' := Apply(s, WriteCall(x, t)); s'.frame == s.frame && s'.h == s.h && s'.reg == s.reg && s'.phase == s.phase
  {
    assert LifeOk(s, x);
    StepKeepsInv3(s, WriteCall(x, t));
    PostGivesToken(s, x, t);
  }

  /** Posting a request keeps everybody else's promises. */
  lemma PostKeeps(w: World, w': World, y: Handler, t: nat)
    requires WInv(w) && y in w.s.h.attached && Owns(w.s.h, y) && Enabled(w.s, WriteCall(y, t))
    requires w' == w.(s := Apply(w.s, WriteCall(y, t)), threads := w'.threads, stage := w'.stage)
    requires forall x :: x != y && Sending(w, x) ==> Sending(w', x)
    requires w'.stage == w.stage || (w'.stage.Quiet? && InOutput(w.s, w.outs) && w.s.frame.call.x == y)
    ensures forall x :: Owed(w', x) ==> Promised(w', x)
  {
    WriteCallOk(w.s, y, t);
    forall x | Owed(w', x)
      ensures Promised(w', x)
    {
      if x != y {
        PostOwed(w, w', x, y, t);
        assert Promised(w, x);
        if Token(w.s, x) {
          TokenStep(w.s, WriteCall(y, t), x);
        }
      }
    }
  }

  lemma PostOwed(w: World, w': World, x: Handler, y: Handler, t: nat)
    requires Enabled(w.s, WriteCall(y, t)) && Owed(w', x)
    requires w' == w.(s := Apply(w.s, WriteCall(y, t)), threads := w'.threads, stage := w'.stage)
    ensures Owed(w, x)
  {
    FlowStep(w.s, WriteCall(y, t), EventOf(Remove(x)));
  }

  lemma KeepPost(w: World, t: nat)
    requires WInv(w) && Can(w, PostWrite(t))
    ensures WInv(Do(w, PostWrite(t)))
  {
    var w' := Do(w, PostWrite(t));
    WriteCallOk(w.s, w.threads[t], t);
    forall x | x != w.threads[t] && Sending(w, x)
      ensures Sending(w', x)
    {
      var u :| u in w.threads && w.threads[u] == x;
      assert u in w'.threads;
    }
    PostKeeps(w, w', w.threads[t], t);
  }

  lemma KeepRearm(w: World)
    requires WInv(w) && Can(w, Rearm)
    ensures WInv(Do(w, Rearm))
  {
    var w' := Do(w, Rearm);
    WriteCallOk(w.s, w.s.frame.call.x, 0);
    assert forall x :: Sending(w, x) ==> Sending(w', x);
    PostKeeps(w, w', w.s.frame.call.x, 0);
  }

  lemma KeepAppend(w: World, t: nat, y: Handler, m: Msg)
    requires WInv(w) && Can(w, Append(t, y, m))
    ensures WInv(Do(w, Append(t, y, m)))
  {
    hide Inv3, Token, Served;
    var w' := Do(w, Append(t, y, m));
    forall x | Owed(w', x)
      ensures Promised(w', x)
    {
      if x == y {
        assert t in w'.threads;
      } else {
        assert Owed(w, x);
        if Sending(w, x) {
          var u :| u in w.threads && w.threads[u] == x;
          assert u in w'.threads;
        }
      }
    }
  }

  lemma KeepLook(w: World, r: Outcome)
    requires WInv(w) && Can(w, Look(r))
    ensures WInv(Do(w, Look(r)))
  {
    hide Inv3, Token, Served, Take, Swap;
    var w' := Do(w, Look(r));
    var y := w.s.frame.call.x;
    forall x | Owed(w', x)
      ensures Promised(w', x)
    {
      if x == y {
        assert w'.stage.Taking?;
      } else {
        assert Owed(w, x);
        assert Sending(w, x) ==> Sending(w', x);
      }
    }
  }

  /** Inside handle_output the handler is attached, and known. */
  lemma OutputAttached(s: State, a: Action)
    requires Inv3(s) && Enabled(s, a) && Attached(s, a)
    requires s.frame.Free? && Apply(s, a).frame.Busy?
    ensures Apply(s, a).frame.call.x in Apply(s, a).h.attached
    ensures Apply(s, a).frame.call.cb.OnOutput? ==> Known(Apply(s, a), Apply(s, a).frame.call.x)
  {
    hide Dispatch, TablesOk, FlowWf, RegisterOnce, PhaseOk, QueuesOk, WriteOk, IoOk, StaleOk, EntriesOk, FrameOk, Known;
    if a.DispatchNext? { OutputKnown(s.(q := s.q.(batch := s.q.batch[1..])), s.q.batch[0], a.now); }
    CalledAttached(s, a);
  }

  lemma CalledAttached(s: State, a: Action)
    requires Inv3(s) && Enabled(s, a) && Attached(s, a)
    requires s.frame.Free? && Apply(s, a).frame.Busy?
    ensures Apply(s, a).frame.call.x in Apply(s, a).h.attached
  {
    hide FlowWf, TablesOk, RegisterOnce, PhaseOk, QueuesOk, WriteOk, IoOk, StaleOk, EntriesOk, FrameOk, Known, Apply, Enabled, LifeOf;
    StepKeepsInv(s, a);
    var s' := Apply(s, a);
    CallsGrow(s, a);
    assert LifeOk(s', s'.frame.call.x);
    LifeLast(s.h.calls, s'.frame.call, s'.frame.call.x);
    LifeNever(s.h.calls, s'.frame.call);
  }

  lemma OutputKnown(s: State, e: Event, now: nat)
    requires TablesOk(s.reg, s.h.owner) && s.frame.Free?
    ensures var s' := Dispatch(s, e, now);
            s'.frame.Busy? && s'.frame.call.cb.OnOutput? ==> Known(s', s'.frame.call.x)
  {
  }

  lemma LifeNever(calls: seq<Call>, c: Call)
    ensures LifeStep(LifeOf(calls, c.x), c.cb) != New
  {
  }

  lemma CallsGrow(s: State, a: Action)
    requires Enabled(s, a) && s.frame.Free? && Apply(s, a).frame.Busy?
    ensures Apply(s, a).h.calls == s.h.calls + [Apply(s, a).frame.call]
  {
    if a.DispatchNext? {
      DispatchCallsGrow(s.(q := s.q.(batch := s.q.batch[1..])), s.q.batch[0], a.now);
    }
  }

  lemma DispatchCallsGrow(s: State, e: Event, now: nat)
    requires s.frame.Free? && Dispatch(s, e, now).frame.Busy?
    ensures Dispatch(s, e, now).h.calls == s.h.calls + [Dispatch(s, e, now).frame.call]
  {
  }

  lemma FrameStays(s: State, a: Action)
    requires Enabled(s, a) && s.frame.Busy? && !a.Return?
    ensures Apply(s, a).frame == s.frame
  {
  }

  lemma RefusedGrows(s: State, a: Action)
    requires Enabled(s, a)
    ensures s.h.refused <= Apply(s, a).h.refused
  {
    if !a.DrainNext? && !a.ReadCtrl? {
      OtherStepsKeepTables(s, a);
    }
  }

  lemma KeepThreads(w: World, a: Action)
    requires WInv(w) && Can(w, ReactorStep(a))
    ensures ThreadsOk(Do(w, ReactorStep(a)))
  {
    HistoryGrows(w.s, a);
    if w.s.frame.Busy? && !a.Return? {
      FrameStays(w.s, a);
      HandlersElse(w.s, a);
    } else if w.s.frame.Free? && Apply(w.s, a).frame.Busy? {
      OutputAttached(w.s, a);
    }
  }

  lemma KeepReactor(w: World, a: Action)
    requires WInv(w) && Can(w, ReactorStep(a))
    ensures WInv(Do(w, ReactorStep(a)))
  {
    var w' := Do(w, ReactorStep(a));
    StepKeepsInv3(w.s, a);
    KeepThreads(w, a);
    forall x | Owed(w', x)
      ensures Promised(w', x)
    {
      KeepPromise(w, a, x);
    }
  }

  lemma KeepPromise(w: World, a: Action, x: Handler)
    requires WInv(w) && Can(w, ReactorStep(a)) && Owed(Do(w, ReactorStep(a)), x)
    ensures Promised(Do(w, ReactorStep(a)), x)
  {
    OwedBefore(w, a, x);
    if Token(w.s, x) {
      TokenStep(w.s, a, x);
      TokenHandedOver(w, a, x);
    } else {
      OthersHandedOver(w, a, x);
    }
  }

  lemma OwedBefore(w: World, a: Action, x: Handler)
    requires Inv3(w.s) && ThreadsOk(w) && Can(w, ReactorStep(a)) && Owed(Do(w, ReactorStep(a)), x)
    ensures Owed(w, x)
  {
    ServedBefore(w.s, a, x);
    RefusedGrows(w.s, a);
  }

  lemma TokenHandedOver(w: World, a: Action, x: Handler)
    requires ThreadsOk(w) && Can(w, ReactorStep(a)) && x in w.outs
    requires Token(Apply(w.s, a), x) || Apply(w.s, a).frame == Busy(Call(x, OnOutput))
    requires w.s.frame.Busy? ==> Token(Apply(w.s, a), x)
    ensures Promised(Do(w, ReactorStep(a)), x)
  {
  }

  lemma OthersHandedOver(w: World, a: Action, x: Handler)
    requires ThreadsOk(w) && Can(w, ReactorStep(a)) && Promised(w, x) && !Token(w.s, x)
    ensures Promised(Do(w, ReactorStep(a)), x)
  {
    if Sending(w, x) {
      assert Sending(Do(w, ReactorStep(a)), x);
    } else {
      FrameStays(w.s, a);
    }
  }

  lemma MoveKeeps(w: World, m: Move)
    requires WInv(w) && Can(w, m)
    ensures WInv(Do(w, m))
  {
    match m
    case ReactorStep(a) => KeepReactor(w, a);
    case Append(t, x, msg) => KeepAppend(w, t, x, msg);
    case PostWrite(t) => KeepPost(w, t);
    case Look(r) => KeepLook(w, r);
    case Rearm => KeepRearm(w);
  }

  lemma {:induction false} WorldKeeps(w: World, ms: seq<Move>, w': World)
    requires WInv(w) && WorldRun(w, ms, w')
    ensures WInv(w')
    decreases |ms|
  {
    if ms != [] {
      MoveKeeps(w, ms[0]);
      WorldKeeps(Do(w, ms[0]), ms[1..], w');
    }
  }

  /** Over every run of the reactor, the senders and the kernel: while a TCP handler
      stays registered, its descriptor has not been refused and no ::send of it has
      failed for good, bytes in either buffer mean WRITE interest no queued removal
      will clear, a request for it that survives the queue, an undispatched WRITE
      event, a sender about to ask, or a handle_output that has yet to look or to
      ask again. */
  lemma NoLostWakeUp(w: World, ms: seq<Move>, w': World, x: Handler)
    requires Initial(w) && WorldRun(w, ms, w') && Owed(w', x)
    ensures Promised(w', x)
  {
    StartInv3();
    WorldKeeps(w, ms, w');
  }

  /** So when everything has come to rest and the reactor is about to wait, the
      kernel is watching for the descriptor to take more. */
  lemma RestMeansWatched(w: World, ms: seq<Move>, w': World, x: Handler)
    requires Initial(w) && WorldRun(w, ms, w') && Owed(w', x)
    requires w'.threads == map[] && w'.s.frame.Free?
    requires w'.s.phase.Draining? && w'.s.q == Queues([], [], [])
    ensures x.io in w'.s.t.kernel && w'.s.t.kernel[x.io].wr
  {
    hide Inv, QueuesOk, InOrder, WriteOk, IoOk, StaleOk, EntriesOk, AskersOk, FrameOk, WorldRun, Served, Token;
    NoLostWakeUp(w, ms, w', x);
    StartInv3();
    WorldKeeps(w, ms, w');
    RestToken(w'.s, x);
  }

  lemma RestToken(s: State, x: Handler)
    requires s.phase.Draining? && s.q == Queues([], [], [])
    requires Token(s, x)
    ensures x.io in s.t.user && s.t.user[x.io].wr
  {
  }
}
