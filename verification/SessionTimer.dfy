/** tcp_reactor/TCPSessionHandler.cpp: the timers a session keeps for itself, of
    which the reactor only ever knows the nearest. */
module SessionTimer {
  import Bytes
  import opened Timers

  /** int64_t */
  type Key = x: int | -0x8000_0000_0000_0000 <= x < 0x8000_0000_0000_0000 witness 0

  /** What a session asks of its reactor: set_timeout or unset_timeout. */
  datatype Req = Add(msec: nat) | Del

  /** One operation on a session's timers, with the clock readings behind it and
      the minimum it read last.  Removing a key that is not there is none. */
  datatype Op =
    | Set(key: Key, msec: nat, at: nat, now: nat, min: int)
    | Unset(key: Key, now: nat, min: int)
    | Extract(due: seq<Key>, from: nat, until: nat)
    | Finish(now: nat, min: int)

  // ------------------------------------------------------------- specification

  /** Which keys an operation may be about, and when its minimum is negative. */
  predicate Possible(m: map<Key, nat>, op: Op) {
    match op
    case Set(_, _, _, _, min) => min >= 0
    case Unset(key, _, min) => key in m && (min < 0 <==> m - {key} == map[])
    case Extract(due, _, _) => forall k :: k in due ==> k in m
    case Finish(_, min) => min != 0 && (min < 0 <==> m == map[])
  }

  function After(m: map<Key, nat>, op: Op): map<Key, nat> {
    match op
    case Set(key, msec, at, _, _) => m[key := at + msec * MILLI]
    case Unset(key, _, _) => m - {key}
    case Extract(due, _, _) => m - (set k | k in due)
    case Finish(_, _) => m
  }

  /** The minimum is that of the keys left, and what is taken out is what is due. */
  ghost predicate Exact(m: map<Key, nat>, op: Op) {
    match op
    case Set(_, _, at, now, min) => at <= now && min == MinTimeout(After(m, op), now)
    case Unset(_, now, min) => min == MinTimeout(After(m, op), now)
    case Extract(due, from, until) => from <= until && FirstOut(m, After(m, op), due, from, until)
    case Finish(now, min) => min == MinTimeout(m, now)
  }

  function Asks(m: map<Key, nat>, op: Op): seq<Req>
    requires Possible(m, op)
  {
    match op
    case Set(_, _, _, _, min) => [Add(min)]
    case Unset(_, _, min) => if min < 0 then [Del] else [Add(min)]
    case Extract(_, _, _) => []
    case Finish(_, min) => if min < 0 then [] else [Add(min)]
  }

  /** The keys waiting, and all that has been asked of the reactor. */
  datatype Point = Point(m: map<Key, nat>, asked: seq<Req>)

  ghost predicate Steps(p: Point, op: Op, p': Point) {
    Possible(p.m, op) && Exact(p.m, op) && p' == Point(After(p.m, op), p.asked + Asks(p.m, op))
  }

  ghost predicate Play(points: seq<Point>, log: seq<Op>) {
    && |points| == |log| + 1
    && points[0] == Point(map[], [])
    && forall i :: 0 <= i < |log| ==> Steps(points[i], log[i], points[i + 1])
  }

  /** These operations lead a new session to these keys and these requests. */
  ghost predicate Played(log: seq<Op>, m: map<Key, nat>, asked: seq<Req>) {
    exists points :: Play(points, log) && points[|log|] == Point(m, asked)
  }

  lemma PlayOn(log: seq<Op>, m: map<Key, nat>, asked: seq<Req>, op: Op)
    requires Played(log, m, asked) && Possible(m, op) && Exact(m, op)
    ensures Played(log + [op], After(m, op), asked + Asks(m, op))
  {
    var points :| Play(points, log) && points[|log|] == Point(m, asked);
    assert Play(points + [Point(After(m, op), asked + Asks(m, op))], log + [op]);
  }

  /** No operation leaves keys waiting unless the last thing asked of the reactor
      was a timeout. */
  ghost predicate Covered(p: Point) {
    p.m != map[] ==> p.asked != [] && p.asked[|p.asked| - 1].Add?
  }

  lemma StepCovered(p: Point, op: Op, p': Point)
    requires Steps(p, op, p') && Covered(p)
    ensures Covered(p')
  {
    if op.Extract? && p.m == map[] {
      assert p.m - (set k | k in op.due) == map[];
    }
  }

  lemma CoveredAlways(log: seq<Op>, m: map<Key, nat>, asked: seq<Req>)
    requires Played(log, m, asked)
    ensures Covered(Point(m, asked))
  {
    var points :| Play(points, log) && points[|log|] == Point(m, asked);
    for i := 0 to |log|
      invariant Covered(points[i])
    {
      StepCovered(points[i], log[i], points[i + 1]);
    }
  }

  /** Outside the drain loop, the timeout asked for last is the nearest one. */
  lemma NearestAlways(log: seq<Op>, m: map<Key, nat>, asked: seq<Req>)
    requires Played(log, m, asked) && log != [] && !log[|log| - 1].Extract? && m != map[]
    ensures asked != [] && asked[|asked| - 1].Add?
    ensures asked[|asked| - 1].msec == MinTimeout(m, log[|log| - 1].now)
  {
    var points :| Play(points, log) && points[|log|] == Point(m, asked);
    var k := |log| - 1;
    assert Steps(points[k], log[k], points[k + 1]);
    MinNegative(m, log[k].now);
  }

  /** That wait is over neither after any deadline nor a whole millisecond before
      the first, if no deadline is 2^31 ms or more away, ahead or past. */
  lemma WaitMeetsNearest(m: map<Key, nat>, now: nat)
    requires m != map[] && Near(m, now) && forall k :: k in m ==> now < m[k] + TWO31 * MILLI
    ensures var min := MinTimeout(m, now);
            && (forall k :: k in m && min > 0 ==> now + min * MILLI <= m[k])
            && (exists k :: k in m && m[k] < now + (min + 1) * MILLI)
  {
    MinNegative(m, now);
    var some :| some in m;
    assert m[some] in m.Values;
    NearIsNear(m, now);
    var d := Least(m.Values);
    var first :| first in m && m[first] == d;
    forall k | k in m
      ensures d <= m[k]
    {
      assert m[k] in m.Values;
    }
  }

  // -------------------------------------------------------------- keys taken out

  /** The keys some operations took out, in order. */
  function Expired(log: seq<Op>): seq<Key> {
    if log == [] then []
    else
      var last := log[|log| - 1];
      Expired(log[..|log| - 1]) + (if last.Extract? then last.due else [])
  }

  ghost function ExpiredSince(log: seq<Op>, n: nat): seq<Key>
    requires n <= |log|
  {
    Expired(log[n..])
  }

  /** Nothing has been taken out since. */
  predicate Quiet(log: seq<Op>, n: nat) {
    forall i :: n <= i < |log| ==> !log[i].Extract?
  }

  lemma {:induction false} ExpiredJoin(a: seq<Op>, b: seq<Op>)
    ensures Expired(a + b) == Expired(a) + Expired(b)
    decreases |b|
  {
    if b == [] {
      assert a + b == a;
    } else {
      var k := |b| - 1;
      assert (a + b)[..|a + b| - 1] == a + b[..k];
      ExpiredJoin(a, b[..k]);
    }
  }

  lemma ExpiredOver(log: seq<Op>, n: nat, k: nat)
    requires n <= k <= |log|
    ensures ExpiredSince(log, n) == ExpiredSince(log[..k], n) + ExpiredSince(log, k)
  {
    assert log[n..] == log[..k][n..] + log[k..];
    ExpiredJoin(log[..k][n..], log[k..]);
  }

  lemma {:induction false} QuietExpires(log: seq<Op>)
    requires Quiet(log, 0)
    ensures Expired(log) == []
    decreases |log|
  {
    if log != [] {
      QuietExpires(log[..|log| - 1]);
    }
  }

  lemma QuietOne(log: seq<Op>, n: nat)
    requires |log| <= n + 1 && (|log| == n + 1 ==> !log[n].Extract?)
    ensures Quiet(log, n)
  {
  }

  /** One extraction, and nothing taken out after it. */
  lemma ExpiredOnce(log: seq<Op>, n: nat, op: Op)
    requires n < |log| && log[n] == op && op.Extract? && Quiet(log, n + 1)
    ensures ExpiredSince(log, n) == op.due
  {
    assert log[n..] == [op] + log[n + 1..];
    ExpiredJoin([op], log[n + 1..]);
    QuietExpires(log[n + 1..]);
    assert [op][..0] == [];
  }

  // ------------------------------------------------------------- draining ends

  /** Deadlines less than 2^31 milliseconds away. */
  predicate Near(m: map<Key, nat>, now: nat) {
    forall k :: k in m ==> m[k] < now + TWO31 * MILLI
  }

  lemma NearIsNear(m: map<Key, nat>, now: nat)
    requires m.Values != {} && Near(m, now)
    ensures WholeMillis(Least(m.Values) - now) < TWO31
  {
    var d := Least(m.Values);
    var k :| k in m && m[k] == d;
  }

  /** One extraction of the drain loop, for a minimum found to be 0. */
  lemma ExtractFacts(m: map<Key, nat>, m': map<Key, nat>, due: seq<Key>, now: nat, until: nat, near: bool)
    requires now <= until && FirstOut(m, m', due, now, until)
    requires MinTimeout(m, now) == 0 && (near ==> Near(m, now))
    ensures Possible(m, Extract(due, now, until)) && m' == After(m, Extract(due, now, until))
    ensures near ==> Near(m', until)
    ensures due == [] ==> !near && m' == m
    ensures due != [] ==> |m'| < |m|
  {
    if near {
      var k := NearZeroIsDue(m, now);
      assert k in due;
    }
    if due != [] {
      assert due[0] in due;
      assert m'.Keys <= m.Keys - {due[0]};
      SubsetSize(m'.Keys, m.Keys - {due[0]});
      assert |m'| == |m'.Keys| && |m| == |m.Keys|;
    } else {
      assert m - (set k | k in due) == m;
    }
  }

  lemma NearZeroIsDue(m: map<Key, nat>, now: nat) returns (k: Key)
    requires MinTimeout(m, now) == 0 && Near(m, now)
    ensures k in m && Due(m[k], now)
  {
    NearIsNear(m, now);
    k :| k in m && m[k] == Least(m.Values);
  }

  // ------------------------------------------------------------------ the class

  class TCPSessionHandler {
    const timer: ObjectsTimer<Key>

    /** The latest reading of the steady clock. */
    var clock: nat

    /** What the session has asked of its reactor so far. */
    var asked: seq<Req>

    /** The keys its own handle_timeout(key) was called for. */
    ghost var called: seq<Key>

    /** The operations so far, and whether every timeout set was below 2^31 ms. */
    ghost var log: seq<Op>
    ghost var near: bool

    ghost predicate Valid()
      reads this, timer
    {
      && timer.Valid()
      && Played(log, timer.Model(), asked)
      && (near ==> Near(timer.Model(), clock))
    }

    ghost function Keys(): map<Key, nat>
      reads this, timer
    {
      timer.Model()
    }

    constructor ()
      ensures Valid() && fresh(timer) && Keys() == map[] && asked == [] && called == [] && near
    {
      timer := new ObjectsTimer<Key>();
      clock, asked, called, log, near := 0, [], [], [], true;
      new;
      assert Play([Point(map[], [])], []);
    }

    /** steady_clock::now() */
    method Tick() returns (now: nat)
      requires Valid()
      modifies this`clock
      ensures Valid() && now == clock >= old(clock)
    {
      now :| now >= clock;
      clock := now;
    }

    method ReadMin() returns (now: nat, min: int)
      requires Valid()
      modifies this`clock
      ensures Valid() && now == clock >= old(clock)
      ensures min == MinTimeout(Keys(), now)
      ensures min < 0 <==> Keys() == map[]
    {
      now := Tick();
      min := timer.GetMinTimeoutMilliseconds(now);
      MinNegative(Keys(), now);
    }

    /** The key is set, and the reactor is asked for the nearest of all. */
    method SetTimeout(msec: nat, key: Key) returns (ok: bool)
      requires Valid() && msec < Bytes.TWO32
      modifies this`clock, this`asked, this`log, this`near, timer
      ensures Valid() && ok
      ensures near == (old(near) && msec < TWO31)
      ensures |log| == |old(log)| + 1 && old(log) <= log
      ensures var op := log[|old(log)|];
              && op.Set? && old(clock) <= op.at <= op.now <= clock
              && Keys() == old(Keys())[key := op.at + msec * MILLI]
              && asked == old(asked) + [Add(MinTimeout(Keys(), op.now))]
    {
      hide Played, MinTimeout;
      var now := Tick();
      var now' := Tick();
      ghost var m := Keys();
      var min := timer.RegisterTimeout(msec, key, now, now');
      if min < 0 {
        return false;
      }
      near := near && msec < TWO31;
      Record(Set(key, msec, now, now', min), m, [Add(min)]);
      ok := true;
    }

    /** The key goes if it is there, and the reactor is asked for the nearest of
        the others, or for none. */
    method UnsetTimeout(key: Key) returns (found: bool)
      requires Valid()
      modifies this`clock, this`asked, this`log, timer
      ensures Valid() && clock >= old(clock)
      ensures found <==> key in old(Keys())
      ensures Keys() == old(Keys()) - {key}
      ensures !found ==> log == old(log) && asked == old(asked)
      ensures found ==> |log| == |old(log)| + 1 && old(log) <= log && log[|old(log)|].Unset?
      ensures found ==> var op := log[|old(log)|];
                old(clock) <= op.now <= clock &&
                asked == old(asked) + (if Keys() == map[] then [Del] else [Add(MinTimeout(Keys(), op.now))])
    {
      hide Played, MinTimeout;
      ghost var m := Keys();
      found := timer.RemoveTimeout(key);
      if !found {
        assert Keys() == m;
        return;
      }
      var n := timer.Size();
      if n == 0 {
        MinNegative(Keys(), clock);
        Nothing(clock);
        Record(Unset(key, clock, -1), m, [Del]);
        return;
      }
      Rearm(key, m);
    }

    /** The nearest of the other keys is asked for. */
    method Rearm(key: Key, ghost m: map<Key, nat>)
      requires timer.Valid() && (near ==> Near(Keys(), clock)) && Played(log, m, asked)
      requires key in m && Keys() == m - {key} && Keys() != map[]
      modifies this`clock, this`asked, this`log
      ensures Valid() && clock >= old(clock)
      ensures |log| == |old(log)| + 1 && old(log) <= log && log[|old(log)|].Unset?
      ensures var op := log[|old(log)|];
              old(clock) <= op.now <= clock && asked == old(asked) + [Add(MinTimeout(Keys(), op.now))]
    {
      hide Played, MinTimeout;
      var now: nat :| now >= clock;
      clock := now;
      var min := timer.GetMinTimeoutMilliseconds(now);
      MinNegative(Keys(), now);
      if min < 0 {
        return;
      }
      Record(Unset(key, now, min), m, [Add(min)]);
    }

    /** One call of the two methods above, of a session that may still set
        `credit` timeouts. */
    method OneCall(credit: nat) returns (left: nat)
      requires Valid()
      modifies this`clock, this`asked, this`log, this`near, timer
      ensures Valid() && clock >= old(clock) && (near ==> old(near))
      ensures old(log) <= log && Quiet(log, |old(log)|)
      ensures left <= credit && (left == credit ==> |Keys()| <= |old(Keys())|)
    {
      hide Played, MinTimeout, Near, Exact, Possible, After, Inverse, Quiet;
      left := credit;
      var key: Key := *;
      var msec: int := *;
      if left > 0 && 0 <= msec < Bytes.TWO32 {
        left := left - 1;
        var _ := SetTimeout(msec, key);
        QuietOne(log, |old(log)|);
      } else {
        ghost var m := Keys();
        var _ := UnsetTimeout(key);
        SizeWithout(m, key);
        QuietOne(log, |old(log)|);
      }
    }

    /** handle_timeout(key), the session's own: any number of such calls. */
    method Callback(key: Key, credit: nat) returns (left: nat)
      requires Valid()
      modifies this, timer
      ensures Valid() && clock >= old(clock) && (near ==> old(near))
      ensures old(log) <= log && Quiet(log, |old(log)|) && called == old(called) + [key]
      ensures left <= credit && (left == credit ==> |Keys()| <= |old(Keys())|)
    {
      hide Played, MinTimeout, Near;
      called := called + [key];
      left := credit;
      var calls: int := *;
      while calls > 0
        invariant Valid() && clock >= old(clock) && (near ==> old(near))
        invariant old(log) <= log && Quiet(log, |old(log)|) && called == old(called) + [key]
        invariant left <= credit && (left == credit ==> |Keys()| <= |old(Keys())|)
      {
        calls := calls - 1;
        left := OneCall(left);
      }
    }

    /** The two nested loops over what was extracted. */
    method FireAll(due: seq<Key>, credit: nat) returns (left: nat)
      requires Valid()
      modifies this, timer
      ensures Valid() && clock >= old(clock) && (near ==> old(near))
      ensures old(log) <= log && Quiet(log, |old(log)|) && called == old(called) + due
      ensures left <= credit && (left == credit ==> |Keys()| <= |old(Keys())|)
    {
      hide Played, MinTimeout;
      left := credit;
      for i := 0 to |due|
        invariant Valid() && clock >= old(clock) && (near ==> old(near))
        invariant old(log) <= log && Quiet(log, |old(log)|) && called == old(called) + due[..i]
        invariant left <= credit && (left == credit ==> |Keys()| <= |old(Keys())|)
      {
        left := Callback(due[i], left);
        assert due[..i + 1] == due[..i] + [due[i]];
      }
    }

    /** extract_timeout_objects, for a minimum found to be 0. */
    method TakeDue(now: nat) returns (due: seq<Key>)
      requires Valid() && now == clock && MinTimeout(Keys(), now) == 0
      modifies timer, this`clock, this`log, this`asked
      ensures Valid() && clock >= now
      ensures log == old(log) + [Extract(due, now, clock)]
      ensures forall k :: k in old(Keys()) && Due(old(Keys())[k], now) ==> k in due
      ensures due == [] ==> !near && Keys() == old(Keys())
      ensures due != [] ==> |Keys()| < |old(Keys())|
    {
      hide Played, MinTimeout, Near;
      ghost var m := Keys();
      ghost var ds, readings;
      var buckets, later;
      buckets, later, ds, readings := timer.ExtractTimeoutObjects(now);
      due := Flatten(buckets, m, ds, readings);
      ExtractionIsFirstOut(m, Keys(), buckets, ds, readings, due, now, later);
      ExtractFacts(m, Keys(), due, now, later, near);
      clock := later;
      Record(Extract(due, now, later), m, []);
    }

    method Record(ghost op: Op, ghost m: map<Key, nat>, req: seq<Req>)
      requires timer.Valid() && (near ==> Near(Keys(), clock))
      requires Played(log, m, asked) && Possible(m, op) && Exact(m, op)
      requires Keys() == After(m, op) && req == Asks(m, op)
      modifies this`log, this`asked
      ensures Valid() && log == old(log) + [op] && asked == old(asked) + req
    {
      PlayOn(log, m, asked, op);
      log := log + [op];
      asked := asked + req;
    }

    /** The body of the drain loop: what is due is taken out and called back. */
    method Round(now: nat, credit: nat) returns (idle: bool, left: nat)
      requires Valid() && now == clock && MinTimeout(Keys(), now) == 0
      modifies this, timer
      ensures Valid() && clock >= old(clock) && (near ==> old(near))
      ensures old(log) <= log && called == old(called) + ExpiredSince(log, |old(log)|)
      ensures forall k :: k in old(Keys()) && Due(old(Keys())[k], now) ==> k in ExpiredSince(log, |old(log)|)
      ensures idle ==> !near && left == credit && Keys() == old(Keys())
      ensures left <= credit && (!idle && left == credit ==> |Keys()| < |old(Keys())|)
    {
      hide Played, MinTimeout, Near, Expired;
      var due := TakeDue(now);
      ghost var op := log[|old(log)|];
      if |due| == 0 {
        ExpiredOnce(log, |old(log)|, op);
        return true, credit;
      }
      idle := false;
      left := FireAll(due, credit);
      ExpiredOnce(log, |old(log)|, op);
    }

    /** handle_timeout.  The loop is given up after `spins` rounds that find the
        minimum to be 0 and yet nothing due; with every timeout below 2^31 ms there
        is no such round, and it ends by itself. */
    method HandleTimeout(spins: nat, credit: nat) returns (ended: bool, ghost first: nat)
      requires Valid()
      modifies this, timer
      ensures Valid() && old(clock) <= first <= clock && old(log) <= log
      ensures near ==> ended
      ensures called == old(called) + ExpiredSince(log, |old(log)|)
      ensures MinTimeout(old(Keys()), first) == 0 ==>
                forall k :: k in old(Keys()) && Due(old(Keys())[k], first) ==> k in ExpiredSince(log, |old(log)|)
      ensures ended ==> |log| > |old(log)| && log[|log| - 1].Finish?
    {
      hide Played, MinTimeout, Near, Expired, ExpiredSince, Exact, Possible, After, Inverse, Due;
      ended := false;
      var left, spin := credit, spins;
      ghost var n, m := |log|, Keys();
      var now, min := ReadMin();
      first := now;
      ExpiredNone(log);
      while min == 0
        invariant Valid() && now == clock >= first && old(log) <= log
        invariant min == MinTimeout(Keys(), now)
        invariant min < 0 <==> Keys() == map[]
        invariant called == old(called) + ExpiredSince(log, n)
        invariant (Keys() == m && now == first) || forall k :: k in m && Due(m[k], first) ==> k in ExpiredSince(log, n)
        decreases left, |Keys()|, spin
      {
        ghost var before := log;
        var idle;
        idle, left := Round(now, left);
        assert log[..|before|] == before;
        ExpiredOver(log, n, |before|);
        if idle {
          if spin == 0 {
            return;
          }
          spin := spin - 1;
        }
        now, min := ReadMin();
      }
      ended := true;
      Leave(now, min, n);
    }

    /** The end of handle_timeout: the nearest key left is asked for. */
    method Leave(now: nat, min: int, ghost n: nat)
      requires Valid() && n <= |log| && min == MinTimeout(Keys(), now) != 0
      requires min < 0 <==> Keys() == map[]
      modifies this`log, this`asked
      ensures Valid() && log == old(log) + [Finish(now, min)]
      ensures asked == old(asked) + (if Keys() == map[] then [] else [Add(MinTimeout(Keys(), now))])
      ensures ExpiredSince(log, n) == ExpiredSince(old(log), n)
    {
      hide Played, MinTimeout, Near, Expired;
      ghost var before := log;
      Record(Finish(now, min), Keys(), if min < 0 then [] else [Add(min)]);
      assert log[..|before|] == before;
      ExpiredOver(log, n, |before|);
      assert log[|before|..] == [Finish(now, min)];
      QuietExpires(log[|before|..]);
    }
  }

  lemma ExpiredNone(log: seq<Op>)
    ensures ExpiredSince(log, |log|) == []
  {
    assert log[|log|..] == [];
  }

  lemma Nothing(now: nat)
    ensures MinTimeout<Key>(map[], now) == -1
  {
  }

  lemma MinNegative(m: map<Key, nat>, now: nat)
    ensures MinTimeout(m, now) < 0 <==> m == map[]
  {
    if k :| k in m {
      assert m[k] in m.Values;
    }
  }

  lemma SizeWithout(m: map<Key, nat>, key: Key)
    ensures |m - {key}| <= |m|
  {
    assert (m - {key}).Keys == m.Keys - {key};
    assert |m - {key}| == |(m - {key}).Keys| && |m| == |m.Keys|;
    SubsetSize(m.Keys - {key}, m.Keys);
  }
}
