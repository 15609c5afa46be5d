/** What the queues between the threads, the kernel and the dispatcher carry, and
    in which order, over every run. */
module Order {
  import opened Events
  import opened Demuxer
  import opened Machine
  import opened Lifecycle

  // ------------------------------------------------------- which events are where

  /** Control events from other threads are calls of the public interface. */
  predicate Posted(q: seq<Event>) {
    forall e :: e in q ==> !IsIo(e.kind) && !e.kind.RemoveWrite? && (e.kind.RemoveAll? ==> e.ret)
  }

  /** Readiness is in the batch only, and only while the batch is read or
      dispatched. */
  ghost predicate QueuesOk(s: State) {
    && Posted(s.q.pipe)
    && (s.phase.Reading? ==> Posted(s.phase.inbuf) && s.q.waitq == [])
    && (forall e :: e in s.q.waitq ==> !IsIo(e.kind))
    && (forall e :: e in s.q.batch && IsIo(e.kind) ==> s.phase.Reading? || s.phase.Dispatching?)
    && (s.frame.Busy? ==> s.phase.Firing? || s.phase.Dispatching? || s.phase.Shutting?)
  }

  /** No promise of the clients is needed for it. */
  lemma StepQueues(s: State, a: Action)
    requires QueuesOk(s) && Enabled(s, a)
    ensures QueuesOk(Apply(s, a))
  {
    if a.DispatchNext? {
      QueuesDispatch(s, a);
    } else if a.ApiCall? || a.Return? {
      QueuesPost(s, a);
    } else if a.DrainNext? || a.ReadCtrl? || a.ReadIo? || a.ReadPipe? {
      QueuesMove(s, a);
    } else {
      QueuesElse(s, a);
    }
  }

  lemma QueuesDispatch(s: State, a: Action)
    requires QueuesOk(s) && Enabled(s, a) && a.DispatchNext?
    ensures QueuesOk(Apply(s, a))
  {
    var s1 := s.(q := s.q.(batch := s.q.batch[1..]));
    DispatchQueues(s1, s.q.batch[0], a.now);
    assert forall e :: e in Raised(s1, s.q.batch[0]) ==> !IsIo(e.kind);
  }

  lemma QueuesPost(s: State, a: Action)
    requires QueuesOk(s) && Enabled(s, a) && (a.ApiCall? || a.Return?)
    ensures QueuesOk(Apply(s, a))
  {
  }

  lemma QueuesMove(s: State, a: Action)
    requires QueuesOk(s) && Enabled(s, a) && (a.DrainNext? || a.ReadCtrl? || a.ReadIo? || a.ReadPipe?)
    ensures QueuesOk(Apply(s, a))
  {
  }

  lemma QueuesElse(s: State, a: Action)
    requires QueuesOk(s) && Enabled(s, a)
    requires !a.ApiCall? && !a.Return? && !a.DispatchNext? && !a.DrainNext? && !a.ReadCtrl? && !a.ReadIo? && !a.ReadPipe?
    ensures QueuesOk(Apply(s, a))
  {
  }

  lemma {:induction false} RunKeepsQueues(s: State, acts: seq<Action>, s': State)
    requires QueuesOk(s) && Run(s, acts, s')
    ensures QueuesOk(s')
    decreases |acts|
  {
    hide QueuesOk, Apply, Enabled;
    if acts != [] {
      StepQueues(s, acts[0]);
      RunKeepsQueues(Apply(s, acts[0]), acts[1..], s');
    }
  }

  // ------------------------------------------------- no removal before its register

  /** No removal of x stands before its registration. */
  predicate Ordered(q: seq<Event>, x: Handler) {
    forall i, j :: 0 <= i < j < |q| ==> !(q[i] == EventOf(Remove(x)) && q[j] == EventOf(Register(x)))
  }

  lemma OrderedJoin(p: seq<Event>, q: seq<Event>, x: Handler)
    ensures Ordered(p + q, x) <==>
            Ordered(p, x) && Ordered(q, x) && !(EventOf(Remove(x)) in p && EventOf(Register(x)) in q)
  {
    var pq := p + q;
    assert forall i :: 0 <= i < |p| ==> pq[i] == p[i];
    assert forall i :: 0 <= i < |q| ==> pq[|p| + i] == q[i];
    if EventOf(Remove(x)) in p && EventOf(Register(x)) in q {
      var i :| 0 <= i < |p| && p[i] == EventOf(Remove(x));
      var j :| 0 <= j < |q| && q[j] == EventOf(Register(x));
      assert pq[i] == EventOf(Remove(x)) && pq[|p| + j] == EventOf(Register(x));
      assert !Ordered(pq, x);
    }
    if Ordered(pq, x) {
      forall i, j | 0 <= i < j < |q|
        ensures !(q[i] == EventOf(Remove(x)) && q[j] == EventOf(Register(x)))
      {
        assert !(pq[|p| + i] == EventOf(Remove(x)) && pq[|p| + j] == EventOf(Register(x)));
      }
    }
  }

  lemma OrderedOne(e: Event, x: Handler)
    ensures Ordered([e], x) && Ordered([], x)
  {
  }

  /** The control events other threads have posted and the reactor has not
      processed. */
  function Unread(s: State): seq<Event> {
    (if s.phase.Reading? then s.phase.inbuf else []) + s.q.pipe
  }

  /** The same behind those it has just processed. */
  function Inward(s: State): seq<Event> {
    (if s.phase.Reading? then s.q.batch else []) + Unread(s)
  }

  ghost predicate InOrder(s: State) {
    forall x :: Ordered(s.q.batch + s.q.waitq, x) && Ordered(Inward(s), x)
  }

  lemma InOrderParts(s: State, x: Handler)
    requires Ordered(s.q.batch + s.q.waitq, x) && Ordered(Inward(s), x)
    ensures Ordered(s.q.batch, x) && Ordered(Unread(s), x)
  {
    OrderedJoin(s.q.batch, s.q.waitq, x);
    OrderedJoin(if s.phase.Reading? then s.q.batch else [], Unread(s), x);
  }

  /** An event is in one of the queues only if it is on its way. */
  lemma QueuedFlows(s: State, e: Event)
    ensures e in s.q.batch || e in s.q.waitq || e in Unread(s) ==> Flow(s, e) > 0
  {
    NumIn(s.q.batch, e);
    NumIn(s.q.waitq, e);
    NumIn(s.q.pipe, e);
    if s.phase.Reading? { NumIn(s.phase.inbuf, e); }
  }

  lemma OrderPost(s: State, a: Action, x: Handler)
    requires FlowWf(s) && InOrder(s) && Enabled(s, a) && Fresh(s, a) && a.ApiCall?
    ensures var s' := Apply(s, a); Ordered(s'.q.batch + s'.q.waitq, x) && Ordered(Inward(s'), x)
  {
    hide Flow, FreshCall, FlowWf, Ordered, InOrder;
    assert Ordered(s.q.batch + s.q.waitq, x) && Ordered(Inward(s), x) by { InOrderAt(s, x); }
    var e := EventOf(a.a);
    if e == EventOf(Register(x)) {
      NobodyNamed(s, x, EventOf(Remove(x)));
      QueuedFlows(s, EventOf(Remove(x)));
    }
    OrderedOne(e, x);
    OrderedJoin(s.q.batch + s.q.waitq, [e], x);
    OrderedJoin(Inward(s), [e], x);
    PostShape(s, a);
  }

  lemma InOrderAt(s: State, x: Handler)
    requires InOrder(s)
    ensures Ordered(s.q.batch + s.q.waitq, x) && Ordered(Inward(s), x)
  {
  }

  /** What a call does to the two lists of events: it ends one of them. */
  lemma PostShape(s: State, a: Action)
    requires Enabled(s, a) && a.ApiCall?
    ensures var s', e := Apply(s, a), EventOf(a.a);
            && (s'.q.batch + s'.q.waitq == s.q.batch + s.q.waitq || s'.q.batch + s'.q.waitq == s.q.batch + s.q.waitq + [e])
            && (Inward(s') == Inward(s) || Inward(s') == Inward(s) + [e])
  {
    var s', e := Apply(s, a), EventOf(a.a);
    assert s.q.batch + (s.q.waitq + [e]) == s.q.batch + s.q.waitq + [e];
    var front := (if s.phase.Reading? then s.q.batch else []);
    var inbuf := (if s.phase.Reading? then s.phase.inbuf else []);
    assert front + (inbuf + (s.q.pipe + [e])) == front + (inbuf + s.q.pipe) + [e];
  }

  lemma OrderReturn(s: State, a: Action, x: Handler)
    requires InOrder(s) && Enabled(s, a) && a.Return?
    ensures var s' := Apply(s, a); Ordered(s'.q.batch + s'.q.waitq, x) && Ordered(Inward(s'), x)
  {
    hide Ordered;
    var e := RemoveStaleEvent(s.frame.call.x.io);
    assert s.q.batch + (s.q.waitq + [e]) == s.q.batch + s.q.waitq + [e];
    OrderedOne(e, x);
    OrderedJoin(s.q.batch + s.q.waitq, [e], x);
  }

  lemma OrderDrain(s: State, a: Action, x: Handler)
    requires InOrder(s) && Enabled(s, a) && a.DrainNext?
    ensures var s' := Apply(s, a); Ordered(s'.q.batch + s'.q.waitq, x) && Ordered(Inward(s'), x)
  {
    hide Ordered, Process, ProcessRefused;
    var c, rest := s.q.waitq[0], s.q.waitq[1..];
    assert s.q.batch + s.q.waitq == s.q.batch + ([c] + rest);
    assert s.q.batch + ([c] + rest) == s.q.batch + [c] + rest;
    OrderedJoin(s.q.batch, [c] + rest, x);
    OrderedJoin([c], rest, x);
    OrderedJoin(s.q.batch, rest, x);
  }

  lemma OrderRead(s: State, a: Action, x: Handler)
    requires QueuesOk(s) && InOrder(s) && Enabled(s, a) && a.ReadCtrl?
    ensures var s' := Apply(s, a); Ordered(s'.q.batch + s'.q.waitq, x) && Ordered(Inward(s'), x)
  {
    hide Ordered, Process, ProcessRefused, Posted;
    var c, rest := s.phase.inbuf[0], s.phase.inbuf[1..] + s.q.pipe;
    assert Inward(s) == s.q.batch + ([c] + rest);
    assert s.q.batch + ([c] + rest) == (s.q.batch + [c]) + rest;
    OrderedJoin(s.q.batch, [c] + rest, x);
    OrderedJoin([c], rest, x);
    OrderedJoin(s.q.batch, rest, x);
    OrderedJoin(s.q.batch + [c], rest, x);
    assert s.q.batch + [] == s.q.batch && s.q.batch + [c] + [] == s.q.batch + [c];
  }

  lemma OrderReady(s: State, a: Action, x: Handler)
    requires QueuesOk(s) && InOrder(s) && Enabled(s, a) && a.ReadIo?
    ensures var s' := Apply(s, a); Ordered(s'.q.batch + s'.q.waitq, x) && Ordered(Inward(s'), x)
  {
    hide Ordered, Posted, Emit;
    var more := Emit(s.phase.ready[0]);
    EmitNeutral(s.phase.ready[0], x);
    OrderedJoin(s.q.batch, more, x);
    OrderedJoin(s.q.batch, Unread(s), x);
    OrderedJoin(s.q.batch + more, Unread(s), x);
    assert s.q.batch + [] == s.q.batch && s.q.batch + more + [] == s.q.batch + more;
  }

  lemma EmitNeutral(r: Ready, x: Handler)
    ensures EventOf(Remove(x)) !in Emit(r) && EventOf(Register(x)) !in Emit(r) && Ordered(Emit(r), x)
  {
  }

  lemma OrderDispatch(s: State, a: Action, x: Handler)
    requires InOrder(s) && Enabled(s, a) && a.DispatchNext?
    ensures var s' := Apply(s, a); Ordered(s'.q.batch + s'.q.waitq, x) && Ordered(Inward(s'), x)
  {
    hide Ordered, Dispatch, Raised;
    var c, rest := s.q.batch[0], s.q.batch[1..] + s.q.waitq;
    var s1 := s.(q := s.q.(batch := s.q.batch[1..]));
    var more := Raised(s1, c);
    DispatchQueues(s1, c, a.now);
    RaisedNeutral(s1, c, x);
    assert s.q.batch + s.q.waitq == [c] + rest;
    OrderedJoin([c], rest, x);
    OrderedJoin(rest, more, x);
    assert s.q.batch[1..] + (s.q.waitq + more) == rest + more;
  }

  lemma RaisedNeutral(s: State, c: Event, x: Handler)
    ensures EventOf(Register(x)) !in Raised(s, c) && Ordered(Raised(s, c), x)
  {
  }

  lemma OrderElse(s: State, a: Action, x: Handler)
    requires InOrder(s) && Enabled(s, a)
    requires !a.ApiCall? && !a.Return? && !a.DispatchNext? && !a.DrainNext? && !a.ReadCtrl? && !a.ReadIo?
    ensures var s' := Apply(s, a); Ordered(s'.q.batch + s'.q.waitq, x) && Ordered(Inward(s'), x)
  {
    hide Ordered, Reportable;
    OrderedJoin(s.q.batch, s.q.waitq, x);
    OrderedJoin(if s.phase.Reading? then s.q.batch else [], Unread(s), x);
    if a.ReadPipe? {
      assert s.q.pipe[..a.n] + s.q.pipe[a.n..] == s.q.pipe;
    }
    assert [] + s.q.waitq == s.q.waitq && [] + s.q.pipe == s.q.pipe && [] + Unread(s) == Unread(s);
    assert s.q.batch == [] ==> s.q.batch + ([] + s.q.pipe) == s.q.pipe;
  }

  /** A removal is posted after the registration it undoes, on whichever queue, and
      no step of the reactor turns the two round within one. */
  lemma StepInOrder(s: State, a: Action)
    requires FlowWf(s) && QueuesOk(s) && InOrder(s) && Enabled(s, a) && Fresh(s, a)
    ensures InOrder(Apply(s, a))
  {
    hide FlowWf, QueuesOk, Apply, Enabled, Fresh, InOrder;
    forall x
      ensures Ordered(Apply(s, a).q.batch + Apply(s, a).q.waitq, x) && Ordered(Inward(Apply(s, a)), x)
    {
      if a.ApiCall? { OrderPost(s, a, x); }
      else if a.Return? { OrderReturn(s, a, x); }
      else if a.DrainNext? { OrderDrain(s, a, x); }
      else if a.ReadCtrl? { OrderRead(s, a, x); }
      else if a.ReadIo? { OrderReady(s, a, x); }
      else if a.DispatchNext? { OrderDispatch(s, a, x); }
      else { OrderElse(s, a, x); }
    }
    MakeInOrder(Apply(s, a));
  }

  lemma MakeInOrder(s: State)
    requires forall x :: Ordered(s.q.batch + s.q.waitq, x) && Ordered(Inward(s), x)
    ensures InOrder(s)
  {
  }
}
