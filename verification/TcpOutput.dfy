/** tcp_reactor/TCPEventHandler.{h,cpp}: the double-buffered output path with its
    per-message bookkeeping, under arbitrary partial writes. */
module TcpOutput {
  import opened Bytes

  /** One accepted call of send. */
  datatype Msg = Msg(id: int, data: seq<Byte>)

  /** send_buffer_info_t */
  datatype Info = Info(id: int, begin: nat, length: nat, remain: nat)

  /** One call of handle_sent: the message's id, and the slice of send_buffer_ it
      is given. */
  datatype Report = Report(id: int, begin: nat, length: nat)

  /** The two buffers and their bookkeeping, with the history: the bytes the
      kernel has taken, the messages accepted and the completions reported;
      `base` is the length of the wire at the last swap of the buffers. */
  datatype Out = Out(
    sendBuffer: seq<Byte>,
    infos: seq<Info>,
    prepare: seq<Byte>,
    prepareInfos: seq<Info>,
    wire: seq<Byte>,
    accepted: seq<Msg>,
    reports: seq<Report>,
    base: nat)

  const EMPTY := Out([], [], [], [], [], [], [], 0)

  /** What ::send answers: some bytes taken, EAGAIN, or another error. */
  datatype Outcome = Sent(n: nat) | Again | Failed

  // ------------------------------------------------------------- specification

  function Send(o: Out, m: Msg): Out {
    o.(prepare := o.prepare + m.data,
       prepareInfos := o.prepareInfos + [Info(m.id, |o.prepare|, |m.data|, |m.data|)],
       accepted := o.accepted + [m])
  }

  function SendAll(o: Out, ms: seq<Msg>): Out
    decreases |ms|
  {
    if ms == [] then o else Send(SendAll(o, ms[..|ms| - 1]), ms[|ms| - 1])
  }

  predicate HasBuffer(o: Out) {
    o.sendBuffer != [] || o.prepare != []
  }

  /** has_buffer_to_send: an empty send buffer is swapped with the prepared one. */
  function Swap(o: Out): Out {
    if o.sendBuffer != [] || o.prepare == [] then o
    else o.(sendBuffer := o.prepare, infos := o.prepareInfos, prepare := o.sendBuffer, prepareInfos := o.infos, base := |o.wire|)
  }

  /** How many messages the first `sent` bytes complete. */
  function Finished(infos: seq<Info>, sent: nat): (k: nat)
    ensures k <= |infos|
  {
    if infos == [] || sent < infos[0].remain then 0 else 1 + Finished(infos[1..], sent - infos[0].remain)
  }

  function Remains(infos: seq<Info>): nat {
    if infos == [] then 0 else infos[0].remain + Remains(infos[1..])
  }

  /** The bookkeeping after `sent` bytes: completed messages go, and the next one
      is short of what was left over. */
  function Pending(infos: seq<Info>, sent: nat): seq<Info> {
    if infos == [] then []
    else if sent < infos[0].remain then [infos[0].(remain := infos[0].remain - sent)] + infos[1..]
    else Pending(infos[1..], sent - infos[0].remain)
  }

  function ReportsOf(infos: seq<Info>): (rs: seq<Report>)
    ensures |rs| == |infos|
  {
    seq(|infos|, i requires 0 <= i < |infos| => Report(infos[i].id, infos[i].begin, infos[i].length))
  }

  /** The kernel has taken n bytes of the send buffer. */
  function Take(o: Out, n: nat): Out
    requires n <= |o.sendBuffer|
  {
    o.(sendBuffer := o.sendBuffer[n..],
       infos := Pending(o.infos, n),
       wire := o.wire + o.sendBuffer[..n],
       reports := o.reports + ReportsOf(o.infos[..Finished(o.infos, n)]))
  }

  /** What the kernel may answer for the buffer it is shown. */
  predicate Possible(o: Out, r: Outcome) {
    r.Sent? ==> 0 < r.n <= |Swap(o).sendBuffer|
  }

  /** handle_output, apart from what callbacks and other threads send meanwhile. */
  function Output(o: Out, r: Outcome): Out
    requires HasBuffer(o) ==> Possible(o, r)
  {
    if !HasBuffer(o) then o
    else if r.Sent? then Take(Swap(o), r.n)
    else Swap(o)
  }

  /** Whether handle_output asks for another WRITE event. */
  predicate Rearms(o: Out, r: Outcome) {
    HasBuffer(o) && !r.Failed?
  }

  // ------------------------------------------------------------------ invariant

  /** All bytes of a list of messages, in order. */
  function Stream(ms: seq<Msg>): seq<Byte> {
    if ms == [] then [] else Stream(ms[..|ms| - 1]) + ms[|ms| - 1].data
  }

  /** Where message i begins in the stream. */
  function Start(ms: seq<Msg>, i: nat): nat
    requires i <= |ms|
  {
    if i == 0 then 0 else Start(ms, i - 1) + |ms[i - 1].data|
  }

  /** The bookkeeping of the messages from number k on, when w bytes of the
      stream are out: the first may be begun, the others are whole, and `begin`
      counts from `origin`. */
  ghost predicate Queue(infos: seq<Info>, ms: seq<Msg>, k: nat, w: nat, origin: nat) {
    && k + |infos| <= |ms|
    && Start(ms, k) <= w
    && (infos != [] ==> w == Start(ms, k) || w < Start(ms, k + 1))
    && (forall j :: 0 <= j < |infos| ==> Tracks(infos[j], ms, k + j, w, origin))
  }

  ghost predicate Tracks(info: Info, ms: seq<Msg>, i: nat, w: nat, origin: nat)
    requires i < |ms|
  {
    && info.id == ms[i].id
    && info.length == |ms[i].data|
    && info.begin + origin == Start(ms, i)
    && info.remain == (if w <= Start(ms, i) then |ms[i].data| else Start(ms, i + 1) - w)
  }

  ghost predicate ReportsOk(reports: seq<Report>, ms: seq<Msg>) {
    && |reports| <= |ms|
    && forall i :: 0 <= i < |reports| ==> reports[i].id == ms[i].id && reports[i].length == |ms[i].data|
  }

  ghost predicate BytesOk(o: Out) {
    && o.wire + o.sendBuffer + o.prepare == Stream(o.accepted)
    && |o.reports| + |o.infos| <= |o.accepted|
    && |o.wire| + |o.sendBuffer| == Start(o.accepted, |o.reports| + |o.infos|)
  }

  ghost predicate PreparedOk(infos: seq<Info>, ms: seq<Msg>) {
    && |infos| <= |ms|
    && var k := |ms| - |infos|;
       Queue(infos, ms, k, Start(ms, k), Start(ms, k))
  }

  ghost predicate OutOk(o: Out) {
    && |o.reports| + |o.infos| + |o.prepareInfos| == |o.accepted|
    && ReportsOk(o.reports, o.accepted)
    && BytesOk(o)
    && Queue(o.infos, o.accepted, |o.reports|, |o.wire|, o.base)
    && PreparedOk(o.prepareInfos, o.accepted)
    && (o.sendBuffer == [] ==> o.infos == [])
    && o.base <= |o.wire|
  }

  // ------------------------------------------------------------ stream lemmas

  lemma StartStep(ms: seq<Msg>, i: nat)
    requires i < |ms|
    ensures Start(ms, i + 1) == Start(ms, i) + |ms[i].data|
  {
  }

  lemma {:induction false} StartMonotone(ms: seq<Msg>, i: nat, j: nat)
    requires i <= j <= |ms|
    ensures Start(ms, i) <= Start(ms, j)
    decreases j
  {
    if i < j {
      StartMonotone(ms, i, j - 1);
      StartStep(ms, j - 1);
    }
  }

  lemma {:induction false} StartAppend(ms: seq<Msg>, m: Msg, i: nat)
    requires i <= |ms|
    ensures Start(ms + [m], i) == Start(ms, i)
    decreases i
  {
    if i > 0 { StartAppend(ms, m, i - 1); }
  }

  lemma {:induction false} StartAll(ms: seq<Msg>)
    ensures Start(ms, |ms|) == |Stream(ms)|
    decreases |ms|
  {
    if ms != [] {
      var front, last := ms[..|ms| - 1], ms[|ms| - 1];
      assert ms == front + [last];
      StartAll(front);
      StartAppend(front, last, |front|);
    }
  }

  lemma StreamAppend(ms: seq<Msg>, m: Msg)
    ensures Stream(ms + [m]) == Stream(ms) + m.data
    ensures Start(ms + [m], |ms|) == |Stream(ms)|
    ensures Start(ms + [m], |ms| + 1) == |Stream(ms)| + |m.data|
  {
    assert (ms + [m])[..|ms|] == ms;
    StartAppend(ms, m, |ms|);
    StartAll(ms);
  }

  lemma QueueAppend(infos: seq<Info>, ms: seq<Msg>, m: Msg, k: nat, w: nat, origin: nat)
    requires Queue(infos, ms, k, w, origin)
    ensures Queue(infos, ms + [m], k, w, origin)
  {
    StartAppend(ms, m, k);
    if infos != [] { StartAppend(ms, m, k + 1); }
    forall j | 0 <= j < |infos|
      ensures Tracks(infos[j], ms + [m], k + j, w, origin)
    {
      assert Tracks(infos[j], ms, k + j, w, origin);
      StartAppend(ms, m, k + j);
      StartAppend(ms, m, k + j + 1);
    }
  }

  // -------------------------------------------------------------- sending

  /** One more message is prepared behind the others. */
  lemma {:induction false} PreparedAppend(infos: seq<Info>, ms: seq<Msg>, m: Msg, at: nat)
    requires PreparedOk(infos, ms) && at == |Stream(ms)| - Start(ms, |ms| - |infos|)
    ensures PreparedOk(infos + [Info(m.id, at, |m.data|, |m.data|)], ms + [m])
  {
    var k := |ms| - |infos|;
    var w := Start(ms, k);
    hide Start, Stream;
    var infos' := infos + [Info(m.id, at, |m.data|, |m.data|)];
    StreamAppend(ms, m);
    StartAppend(ms, m, k);
    QueueAppend(infos, ms, m, k, w, w);
    StartAll(ms);
    StartMonotone(ms, k, |ms|);
    StartStep(ms + [m], k);
    forall j | 0 <= j < |infos'|
      ensures Tracks(infos'[j], ms + [m], k + j, w, w)
    {
      if j < |infos| {
        assert Tracks(infos[j], ms + [m], k + j, w, w);
      }
    }
  }

  lemma SendKeeps(o: Out, m: Msg)
    requires OutOk(o)
    ensures OutOk(Send(o, m))
  {
    hide Queue, PreparedOk, Stream;
    var ms := o.accepted;
    var at := |o.reports| + |o.infos|;
    StreamAppend(ms, m);
    StartAppend(ms, m, at);
    QueueAppend(o.infos, ms, m, |o.reports|, |o.wire|, o.base);
    PreparedAppend(o.prepareInfos, ms, m, |o.prepare|);
    assert o.wire + o.sendBuffer + (o.prepare + m.data) == o.wire + o.sendBuffer + o.prepare + m.data;
  }

  lemma {:induction false} SendAllKeeps(o: Out, ms: seq<Msg>)
    requires OutOk(o)
    ensures OutOk(SendAll(o, ms))
    decreases |ms|
  {
    if ms != [] {
      SendAllKeeps(o, ms[..|ms| - 1]);
      SendKeeps(SendAll(o, ms[..|ms| - 1]), ms[|ms| - 1]);
    }
  }

  // -------------------------------------------------------------- swapping

  lemma SwapKeeps(o: Out)
    requires OutOk(o)
    ensures OutOk(Swap(o))
  {
    if o.sendBuffer == [] && o.prepare != [] {
      var o' := Swap(o);
      StartAll(o.accepted);
      assert o'.wire + o'.sendBuffer + o'.prepare == o.wire + o.sendBuffer + o.prepare;
      assert |o.accepted| == |o.reports| + |o.prepareInfos|;
    }
  }

  // ------------------------------------------------------- a partial write

  /** Which messages n more bytes complete: precisely those that end within them,
      up to the first that does not. */
  lemma {:induction false} TakeQueue(infos: seq<Info>, ms: seq<Msg>, k: nat, w: nat, origin: nat, n: nat)
    requires Queue(infos, ms, k, w, origin)
    requires w + n <= Start(ms, k + |infos|)
    ensures var f := Finished(infos, n);
            && |Pending(infos, n)| == |infos| - f
            && Queue(Pending(infos, n), ms, k + f, w + n, origin)
            && (f < |infos| ==> w + n < Start(ms, k + f + 1))
    decreases infos
  {
    hide Start;
    if infos == [] {
    } else {
      StartStep(ms, k);
      assert Tracks(infos[0], ms, k, w, origin);
      if n < infos[0].remain {
        PendingFirst(infos, ms, k, w, origin, n);
      } else {
        TailQueue(infos, ms, k, w, origin);
        assert w + infos[0].remain == Start(ms, k + 1);
        TakeQueue(infos[1..], ms, k + 1, Start(ms, k + 1), origin, n - infos[0].remain);
      }
    }
  }

  lemma TailQueue(infos: seq<Info>, ms: seq<Msg>, k: nat, w: nat, origin: nat)
    requires Queue(infos, ms, k, w, origin) && infos != []
    ensures Queue(infos[1..], ms, k + 1, Start(ms, k + 1), origin)
  {
    StartStep(ms, k);
    forall j | 0 <= j < |infos| - 1
      ensures Tracks(infos[1..][j], ms, k + 1 + j, Start(ms, k + 1), origin)
    {
      assert Tracks(infos[j + 1], ms, k + (j + 1), w, origin);
      StartMonotone(ms, k + 1, k + 1 + j);
    }
    if |infos| > 1 { StartMonotone(ms, k + 1, k + 2); }
  }

  /** The first message is begun, or further on, but not complete. */
  lemma PendingFirst(infos: seq<Info>, ms: seq<Msg>, k: nat, w: nat, origin: nat, n: nat)
    requires Queue(infos, ms, k, w, origin) && infos != [] && n < infos[0].remain
    ensures Queue([infos[0].(remain := infos[0].remain - n)] + infos[1..], ms, k, w + n, origin)
    ensures w + n < Start(ms, k + 1)
  {
    var rest := [infos[0].(remain := infos[0].remain - n)] + infos[1..];
    StartStep(ms, k);
    assert Tracks(infos[0], ms, k, w, origin);
    assert Tracks(rest[0], ms, k, w + n, origin);
    forall j | 1 <= j < |rest|
      ensures Tracks(rest[j], ms, k + j, w + n, origin)
    {
      assert rest[j] == infos[j];
      assert Tracks(infos[j], ms, k + j, w, origin);
      StartMonotone(ms, k + 1, k + j);
    }
  }

  lemma TakeReports(infos: seq<Info>, reports: seq<Report>, ms: seq<Msg>, w: nat, origin: nat, f: nat)
    requires ReportsOk(reports, ms) && Queue(infos, ms, |reports|, w, origin) && f <= |infos|
    ensures ReportsOk(reports + ReportsOf(infos[..f]), ms)
  {
    var k := |reports|;
    var more := ReportsOf(infos[..f]);
    forall i | 0 <= i < f
      ensures more[i].id == ms[k + i].id && more[i].length == |ms[k + i].data|
    {
      assert Tracks(infos[i], ms, k + i, w, origin);
    }
  }

  lemma TakeBytes(o: Out, n: nat)
    requires n <= |o.sendBuffer|
    ensures (o.wire + o.sendBuffer[..n]) + o.sendBuffer[n..] + o.prepare == o.wire + o.sendBuffer + o.prepare
  {
    assert o.sendBuffer == o.sendBuffer[..n] + o.sendBuffer[n..];
  }

  lemma TakeKeeps(o: Out, n: nat)
    requires OutOk(o) && n <= |o.sendBuffer| && o.sendBuffer != []
    ensures OutOk(Take(o, n))
  {
    hide Queue, ReportsOk, PreparedOk, Stream, Pending, ReportsOf;
    var k := |o.reports|;
    var f := Finished(o.infos, n);
    TakeQueue(o.infos, o.accepted, k, |o.wire|, o.base, n);
    TakeReports(o.infos, o.reports, o.accepted, |o.wire|, o.base, f);
    TakeBytes(o, n);
    if n == |o.sendBuffer| && f < |o.infos| {
      StartMonotone(o.accepted, k + f + 1, k + |o.infos|);
    }
    var o' := Take(o, n);
    assert |o'.reports| == k + f && |o'.infos| == |o.infos| - f;
    assert |o'.wire| == |o.wire| + n;
  }

  lemma OutputKeeps(o: Out, r: Outcome)
    requires OutOk(o) && (HasBuffer(o) ==> Possible(o, r))
    ensures OutOk(Output(o, r))
  {
    SwapKeeps(o);
    if HasBuffer(o) && r.Sent? {
      TakeKeeps(Swap(o), r.n);
    }
  }

  // ------------------------------------------------------------- all runs

  /** What can happen to the output path: a send, or one handle_output. */
  datatype Step = DoSend(m: Msg) | DoOutput(r: Outcome)

  ghost predicate Runs(o: Out, steps: seq<Step>, o': Out)
    decreases |steps|
  {
    if steps == [] then o == o'
    else
      match steps[0]
      case DoSend(m) => Runs(Send(o, m), steps[1..], o')
      case DoOutput(r) => (HasBuffer(o) ==> Possible(o, r)) && Runs(Output(o, r), steps[1..], o')
  }

  lemma {:induction false} RunsKeep(o: Out, steps: seq<Step>, o': Out)
    requires OutOk(o) && Runs(o, steps, o')
    ensures OutOk(o')
    decreases |steps|
  {
    if steps != [] {
      match steps[0]
      case DoSend(m) =>
        SendKeeps(o, m);
        RunsKeep(Send(o, m), steps[1..], o');
      case DoOutput(r) =>
        OutputKeeps(o, r);
        RunsKeep(Output(o, r), steps[1..], o');
    }
  }

  lemma EmptyOk()
    ensures OutOk(EMPTY)
  {
  }

  function Ids(ms: seq<Msg>): seq<int> {
    seq(|ms|, i requires 0 <= i < |ms| => ms[i].id)
  }

  function ReportIds(rs: seq<Report>): seq<int> {
    seq(|rs|, i requires 0 <= i < |rs| => rs[i].id)
  }

  function InfoIds(infos: seq<Info>): seq<int> {
    seq(|infos|, i requires 0 <= i < |infos| => infos[i].id)
  }

  /** No byte is lost, duplicated or reordered, and no message either: the wire
      and the two buffers make up what was sent, the completions and the two
      queues make up the order of sending, and the bookkeeping adds up. */
  lemma Conservation(steps: seq<Step>, o: Out)
    requires Runs(EMPTY, steps, o)
    ensures o.wire + o.sendBuffer + o.prepare == Stream(o.accepted)
    ensures ReportIds(o.reports) + InfoIds(o.infos) + InfoIds(o.prepareInfos) == Ids(o.accepted)
    ensures Remains(o.infos) == |o.sendBuffer| && Remains(o.prepareInfos) == |o.prepare|
  {
    EmptyOk();
    RunsKeep(EMPTY, steps, o);
    IdsAddUp(o);
    BytesAddUp(o);
  }

  lemma IdsAddUp(o: Out)
    requires OutOk(o)
    ensures ReportIds(o.reports) + InfoIds(o.infos) + InfoIds(o.prepareInfos) == Ids(o.accepted)
  {
    hide Queue, Stream;
    var k, p := |o.reports|, |o.infos|;
    QueueIds(o.infos, o.accepted, k, |o.wire|, o.base);
    QueueIds(o.prepareInfos, o.accepted, k + p, Start(o.accepted, k + p), Start(o.accepted, k + p));
    assert ReportIds(o.reports) == Ids(o.accepted)[..k];
    assert Ids(o.accepted) == Ids(o.accepted)[..k] + Ids(o.accepted)[k..k + p] + Ids(o.accepted)[k + p..];
  }

  lemma BytesAddUp(o: Out)
    requires OutOk(o)
    ensures Remains(o.infos) == |o.sendBuffer| && Remains(o.prepareInfos) == |o.prepare|
  {
    hide Stream;
    var k, p := |o.reports|, |o.infos|;
    RemainsQueue(o.infos, o.accepted, k, |o.wire|, o.base);
    RemainsQueue(o.prepareInfos, o.accepted, k + p, Start(o.accepted, k + p), Start(o.accepted, k + p));
    StartAll(o.accepted);
  }

  lemma QueueIds(infos: seq<Info>, ms: seq<Msg>, k: nat, w: nat, origin: nat)
    requires Queue(infos, ms, k, w, origin)
    ensures InfoIds(infos) == Ids(ms)[k..k + |infos|]
  {
    forall j | 0 <= j < |infos|
      ensures InfoIds(infos)[j] == Ids(ms)[k + j]
    {
      assert Tracks(infos[j], ms, k + j, w, origin);
    }
  }

  lemma {:induction false} RemainsQueue(infos: seq<Info>, ms: seq<Msg>, k: nat, w: nat, origin: nat)
    requires Queue(infos, ms, k, w, origin)
    ensures infos != [] ==> Remains(infos) == Start(ms, k + |infos|) - w
    decreases infos
  {
    if infos != [] {
      StartStep(ms, k);
      assert Tracks(infos[0], ms, k, w, origin);
      TailQueue(infos, ms, k, w, origin);
      RemainsQueue(infos[1..], ms, k + 1, Start(ms, k + 1), origin);
    }
  }

  /** A non-empty message has been reported exactly when its last byte is out; a
      reported message of any length has nothing left to send. */
  lemma CompletionExact(steps: seq<Step>, o: Out, i: nat)
    requires Runs(EMPTY, steps, o) && i < |o.accepted|
    ensures i < |o.reports| ==> Start(o.accepted, i + 1) <= |o.wire|
    ensures o.accepted[i].data != [] ==> (i < |o.reports| <==> Start(o.accepted, i + 1) <= |o.wire|)
  {
    EmptyOk();
    RunsKeep(EMPTY, steps, o);
    CompletedIff(o, i);
  }

  lemma CompletedIff(o: Out, i: nat)
    requires OutOk(o) && i < |o.accepted|
    ensures i < |o.reports| ==> Start(o.accepted, i + 1) <= |o.wire|
    ensures o.accepted[i].data != [] ==> (i < |o.reports| <==> Start(o.accepted, i + 1) <= |o.wire|)
  {
    var k := |o.reports|;
    if i < k {
      StartMonotone(o.accepted, i + 1, k);
    } else {
      StartStep(o.accepted, i);
      StartMonotone(o.accepted, k, i);
      if k < i { StartMonotone(o.accepted, k + 1, i); }
    }
  }

  /** handle_sent comes exactly once per non-empty message, in the very
      handle_output that gets its last byte out. */
  lemma CompletesInStep(steps: seq<Step>, o: Out, r: Outcome, i: nat)
    requires Runs(EMPTY, steps, o) && (HasBuffer(o) ==> Possible(o, r))
    requires i < |o.accepted| && o.accepted[i].data != []
    ensures var o' := Output(o, r);
            |o.reports| <= i < |o'.reports| <==> |o.wire| < Start(o.accepted, i + 1) <= |o'.wire|
    ensures var o' := Output(o, r);
            |o.reports| <= i < |o'.reports| ==> o'.reports[i].id == o.accepted[i].id
  {
    EmptyOk();
    RunsKeep(EMPTY, steps, o);
    OutputKeeps(o, r);
    CompletedIff(o, i);
    CompletedIff(Output(o, r), i);
  }

  /** With both buffers empty, the messages still waiting are empty ones, and no
      handle_output reports them: they wait for the next byte to be sent. */
  lemma {:induction false} OnlyEmptyMessagesWait(steps: seq<Step>, o: Out, i: nat)
    requires Runs(EMPTY, steps, o) && !HasBuffer(o)
    requires |o.reports| <= i < |o.accepted|
    ensures o.accepted[i].data == []
    ensures forall r :: Output(o, r) == o
  {
    EmptyOk();
    RunsKeep(EMPTY, steps, o);
    StartAll(o.accepted);
    StartMonotone(o.accepted, |o.reports|, i);
    StartStep(o.accepted, i);
    StartMonotone(o.accepted, i + 1, |o.accepted|);
  }

  /** Nothing but calls of handle_output. */
  predicate OutputsOnly(steps: seq<Step>) {
    forall i :: 0 <= i < |steps| ==> steps[i].DoOutput?
  }

  /** What sending does to buffers that were empty. */
  lemma {:induction false} SendAllBytes(o: Out, ms: seq<Msg>)
    ensures var o' := SendAll(o, ms);
            && o'.prepare == o.prepare + Stream(ms)
            && o'.sendBuffer == o.sendBuffer && o'.infos == o.infos
            && o'.reports == o.reports && o'.accepted == o.accepted + ms
    decreases |ms|
  {
    if ms == [] {
      assert o.prepare + [] == o.prepare && o.accepted + [] == o.accepted;
    } else {
      var front, last := ms[..|ms| - 1], ms[|ms| - 1];
      SendAllBytes(o, front);
      assert ms == front + [last];
      assert o.prepare + Stream(front) + last.data == o.prepare + (Stream(front) + last.data);
      assert o.accepted + front + [last] == o.accepted + (front + [last]);
    }
  }

  /** With nothing in either buffer, handle_output does nothing, however often. */
  lemma {:induction false} RestStays(o: Out, steps: seq<Step>, o': Out)
    requires !HasBuffer(o) && OutputsOnly(steps) && Runs(o, steps, o')
    ensures o' == o
    decreases |steps|
  {
    if steps != [] {
      RestStays(o, steps[1..], o');
    }
  }

  /** One batch, prepared or being sent, and nothing behind it. */
  ghost predicate LastBatch(o: Out) {
    && OutOk(o)
    && (if o.prepare == [] then o.prepareInfos == [] else o.sendBuffer == [])
  }

  lemma LastBatchStep(o: Out, r: Outcome)
    requires LastBatch(o) && (HasBuffer(o) ==> Possible(o, r))
    ensures LastBatch(Output(o, r))
  {
    OutputKeeps(o, r);
  }

  lemma {:induction false} LastBatchRuns(o: Out, steps: seq<Step>, o': Out)
    requires LastBatch(o) && OutputsOnly(steps) && Runs(o, steps, o')
    ensures LastBatch(o')
    decreases |steps|
  {
    if steps != [] {
      LastBatchStep(o, steps[0].r);
      LastBatchRuns(Output(o, steps[0].r), steps[1..], o');
    }
  }

  /** From a state at rest, some messages are sent and then handle_output is called
      until both buffers are empty again.  Every message ever accepted has then
      been reported exactly when those messages had a byte between them; without
      one, they stay as unreported as what was left over before. */
  lemma {:induction false} AllReportedIff(o: Out, ms: seq<Msg>, steps: seq<Step>, o': Out)
    requires OutOk(o) && !HasBuffer(o)
    requires OutputsOnly(steps) && Runs(SendAll(o, ms), steps, o') && !HasBuffer(o')
    ensures |o'.reports| == |o'.accepted| <==> Stream(ms) != [] || (ms == [] && |o.reports| == |o.accepted|)
    ensures Stream(ms) == [] ==> o' == SendAll(o, ms)
  {
    SendAllBytes(o, ms);
    SendAllKeeps(o, ms);
    assert [] + Stream(ms) == Stream(ms);
    if Stream(ms) == [] {
      RestStays(SendAll(o, ms), steps, o');
    } else {
      LastBatchRuns(SendAll(o, ms), steps, o');
    }
  }

  /** An empty message sent alone, on a new connection, say: handle_output is
      called as often as one likes, and handle_sent never is. */
  lemma EmptyAloneWaits(id: int, steps: seq<Step>, o': Out)
    requires OutputsOnly(steps) && Runs(Send(EMPTY, Msg(id, [])), steps, o')
    ensures o'.accepted == [Msg(id, [])] && o'.reports == []
  {
    RestStays(Send(EMPTY, Msg(id, [])), steps, o');
  }

  /** The first byte of a later batch brings it, before the message that byte
      belongs to is complete. */
  lemma EmptyGoesFirst(id: int, m: Msg)
    requires |m.data| > 1
    ensures var o := Send(Send(EMPTY, Msg(id, [])), m);
            Possible(o, Sent(1)) && Output(o, Sent(1)).reports == [Report(id, 0, 0)]
  {
    var o := Send(Send(EMPTY, Msg(id, [])), m);
    assert [] + m.data == m.data;
    var infos := Swap(o).infos;
    assert infos == [Info(id, 0, 0, 0), Info(m.id, 0, |m.data|, |m.data|)];
    FirstInfo(infos, 1);
    assert infos[1..] == [Info(m.id, 0, |m.data|, |m.data|)];
    FirstInfo(infos[1..], 1);
  }

  // ----------------------------------------------------------- the payload pointer

  lemma {:induction false} StreamSlice(ms: seq<Msg>, i: nat)
    requires i < |ms|
    ensures Start(ms, i) <= Start(ms, i + 1) <= |Stream(ms)|
    ensures Stream(ms)[Start(ms, i)..Start(ms, i + 1)] == ms[i].data
    decreases |ms|
  {
    var front, last := ms[..|ms| - 1], ms[|ms| - 1];
    assert ms == front + [last];
    StreamAppend(front, last);
    StartAppend(front, last, i);
    if i < |front| {
      StreamSlice(front, i);
      StartAppend(front, last, i + 1);
    } else {
      StartAll(front);
    }
  }

  /** send_buffer_.data() + info.begin points at the message's own bytes exactly
      when nothing has been erased since the buffers were swapped. */
  lemma PointerRightIff(o: Out, n: nat, j: nat)
    requires OutOk(o) && n <= |o.sendBuffer| && j < Finished(o.infos, n)
    ensures var i := |o.reports| + j;
            var report := Take(o, n).reports[i];
            report.begin == Start(o.accepted, i) - |o.wire| <==> |o.wire| == o.base
  {
    assert Tracks(o.infos[j], o.accepted, |o.reports| + j, |o.wire|, o.base);
  }

  /** Then the slice handed to handle_sent is the message. */
  lemma {:induction false} PayloadIsMessage(o: Out, n: nat, j: nat)
    requires OutOk(o) && n <= |o.sendBuffer| && j < Finished(o.infos, n)
    requires |o.wire| == o.base
    ensures var i := |o.reports| + j;
            var report := Take(o, n).reports[i];
            && report.begin + report.length <= |o.sendBuffer|
            && o.sendBuffer[report.begin..report.begin + report.length] == o.accepted[i].data
  {
    var k := |o.reports|;
    var i := k + j;
    assert Tracks(o.infos[j], o.accepted, i, |o.wire|, o.base);
    StartStep(o.accepted, i);
    StartMonotone(o.accepted, i + 1, k + |o.infos|);
    StreamSlice(o.accepted, i);
    MiddleSlice(o.wire, o.sendBuffer, o.prepare, Start(o.accepted, i), Start(o.accepted, i + 1));
  }

  lemma MiddleSlice(a: seq<Byte>, b: seq<Byte>, c: seq<Byte>, from: nat, to: nat)
    requires |a| <= from <= to <= |a| + |b|
    ensures (a + b + c)[from..to] == b[from - |a|..to - |a|]
  {
  }

  /** After an earlier partial write the slice of the batch's last message runs
      past the end of the buffer. */
  lemma PointerPastTheEnd(o: Out)
    requires OutOk(o) && o.infos != []
    ensures var last := o.infos[|o.infos| - 1];
            last.begin + last.length > |o.sendBuffer| <==> |o.wire| > o.base
  {
    var j := |o.infos| - 1;
    assert Tracks(o.infos[j], o.accepted, |o.reports| + j, |o.wire|, o.base);
    StartStep(o.accepted, |o.reports| + j);
  }

  /** Three bytes sent in two writes: handle_sent is given three bytes from where
      only the last one is left. */
  lemma PointerExample(id: int, data: seq<Byte>)
    requires |data| == 3
    ensures var o := Output(Send(EMPTY, Msg(id, data)), Sent(2));
            && Runs(EMPTY, [DoSend(Msg(id, data)), DoOutput(Sent(2))], o)
            && o.sendBuffer == data[2..]
            && Output(o, Sent(1)).reports == [Report(id, 0, 3)]
  {
    var o1 := Send(EMPTY, Msg(id, data));
    var o := Output(o1, Sent(2));
    assert [] + data == data;
    assert Runs(o, [], o) && Runs(o1, [DoOutput(Sent(2))], o);
  }

  // ------------------------------------------------------------------ the class

  /** Later sends touch the prepared half only. */
  lemma {:induction false} SendAllApart(o: Out, o': Out, ms: seq<Msg>)
    requires o'.prepare == o.prepare && o'.prepareInfos == o.prepareInfos && o'.accepted == o.accepted
    ensures SendAll(o', ms) == SendAll(o, ms).(sendBuffer := o'.sendBuffer, infos := o'.infos, wire := o'.wire, reports := o'.reports, base := o'.base)
    decreases |ms|
  {
    if ms != [] {
      SendAllApart(o, o', ms[..|ms| - 1]);
    }
  }

  lemma SendAllSnoc(o: Out, ms: seq<Msg>, m: Msg)
    ensures SendAll(o, ms + [m]) == Send(SendAll(o, ms), m)
  {
    assert (ms + [m])[..|ms|] == ms;
  }

  lemma {:induction false} SendAllJoin(o: Out, ms: seq<Msg>, ms': seq<Msg>)
    ensures SendAll(SendAll(o, ms), ms') == SendAll(o, ms + ms')
    decreases |ms'|
  {
    if ms' == [] {
      assert ms + ms' == ms;
    } else {
      SendAllJoin(o, ms, ms'[..|ms'| - 1]);
      assert (ms + ms')[..|ms + ms'| - 1] == ms + ms'[..|ms'| - 1];
    }
  }

  lemma ReportsNext(infos: seq<Info>, k: nat)
    requires k < |infos|
    ensures ReportsOf(infos[..k + 1]) == ReportsOf(infos[..k]) + [Report(infos[k].id, infos[k].begin, infos[k].length)]
    ensures infos[k..][1..] == infos[k + 1..]
  {
  }

  /** What the bytes taken mean for the first message. */
  lemma FirstInfo(infos: seq<Info>, sent: nat)
    requires infos != []
    ensures sent < infos[0].remain ==>
              Finished(infos, sent) == 0 && Pending(infos, sent) == [infos[0].(remain := infos[0].remain - sent)] + infos[1..]
    ensures sent >= infos[0].remain ==>
              && Finished(infos, sent) == 1 + Finished(infos[1..], sent - infos[0].remain)
              && Pending(infos, sent) == Pending(infos[1..], sent - infos[0].remain)
  {
  }

  lemma NoInfos(sent: nat)
    ensures Finished([], sent) == 0 && Pending([], sent) == []
  {
  }

  lemma NothingYet(o: Out)
    ensures o.infos[0..] == o.infos && ReportsOf(o.infos[..0]) == [] && SendAll(o, []) == o
  {
  }

  class TCPEventHandler {
    var sendBuffer: seq<Byte>
    var infos: seq<Info>
    var prepare: seq<Byte>
    var prepareInfos: seq<Info>
    var setOutputEvent: bool
    var attached: bool
    var closed: bool

    /** How often register_writable has been called. */
    var rearmed: nat

    ghost var wire: seq<Byte>
    ghost var accepted: seq<Msg>
    ghost var reports: seq<Report>
    ghost var base: nat

    ghost function Model(): Out
      reads this
    {
      Out(sendBuffer, infos, prepare, prepareInfos, wire, accepted, reports, base)
    }

    constructor ()
      ensures Model() == EMPTY && !attached && !closed
    {
      sendBuffer, infos, prepare, prepareInfos := [], [], [], [];
      setOutputEvent, attached, closed, rearmed := false, false, false, 0;
      wire, accepted, reports, base := [], [], [], 0;
    }

    /** send: appended to the prepared half under its lock, then a WRITE event is
        asked for. */
    method SendMessage(id: int, data: seq<Byte>) returns (ok: bool)
      modifies this
      ensures ok == (old(attached) && !old(closed))
      ensures Model() == if ok then Send(old(Model()), Msg(id, data)) else old(Model())
      ensures rearmed == if ok then old(rearmed) + 1 else old(rearmed)
      ensures attached == old(attached) && closed == old(closed) && setOutputEvent == old(setOutputEvent)
    {
      if !attached || closed {
        return false;
      }
      var begin := |prepare|;
      prepare := prepare + data;
      prepareInfos := prepareInfos + [Info(id, begin, |data|, |data|)];
      accepted := accepted + [Msg(id, data)];
      rearmed := rearmed + 1;
      return true;
    }

    method HasBufferToSend() returns (has: bool)
      modifies this`sendBuffer, this`infos, this`prepare, this`prepareInfos, this`base
      ensures has == HasBuffer(old(Model()))
      ensures Model() == Swap(old(Model()))
    {
      if |sendBuffer| > 0 {
        return true;
      }
      if |prepare| == 0 {
        return false;
      }
      sendBuffer, prepare := prepare, sendBuffer;
      infos, prepareInfos := prepareInfos, infos;
      base := |wire|;
      return true;
    }

    /** Callbacks of the session and other threads: any number of sends. */
    method Others() returns (ms: seq<Msg>)
      modifies this
      ensures Model() == SendAll(old(Model()), ms)
      ensures rearmed >= old(rearmed) && attached == old(attached)
    {
      ms := [];
      var calls: int := *;
      while calls > 0
        invariant Model() == SendAll(old(Model()), ms)
        invariant rearmed >= old(rearmed) && attached == old(attached)
      {
        calls := calls - 1;
        var m: Msg := *;
        var ok := SendMessage(m.id, m.data);
        if ok {
          SendAllSnoc(old(Model()), ms, m);
          ms := ms + [m];
        }
      }
    }

    /** The first message is complete: handle_sent, which may send more, and then
        its bookkeeping goes. */
    method ReportFirst(ghost cur: Out, ghost before: seq<Msg>) returns (more: seq<Msg>)
      requires |infos| > 0 && cur.infos == infos && Model() == SendAll(cur, before)
      modifies this
      ensures infos == old(infos)[1..] && rearmed >= old(rearmed)
      ensures var info := cur.infos[0];
              Model() == SendAll(cur.(infos := cur.infos[1..], reports := cur.reports + [Report(info.id, info.begin, info.length)]), before + more)
    {
      hide SendAll;
      var info := infos[0];
      reports := reports + [Report(info.id, info.begin, info.length)];
      SendAllApart(cur, cur, before);
      ghost var told := cur.(reports := reports);
      SendAllApart(cur, told, before);
      more := Others();
      SendAllJoin(told, before, more);
      SendAllApart(told, told, before + more);
      infos := infos[1..];
      SendAllApart(told, told.(infos := infos), before + more);
    }

    /** The loop over send_buffer_infos_ after n bytes have been taken. */
    method Complete(n: nat) returns (after: seq<Msg>)
      modifies this
      ensures var o := old(Model());
              Model() == SendAll(o.(infos := Pending(o.infos, n),
                                    reports := o.reports + ReportsOf(o.infos[..Finished(o.infos, n)])), after)
      ensures rearmed >= old(rearmed)
    {
      hide SendAll, ReportsOf, Pending, Finished;
      after := [];
      ghost var o := Model();
      ghost var done := 0;
      ghost var cur := o;
      var sentInfoSize: int := n;
      NothingYet(o);
      while |infos| > 0
        invariant done <= |o.infos| && infos == o.infos[done..]
        invariant sentInfoSize >= 0
        invariant Finished(o.infos, n) == done + Finished(infos, sentInfoSize)
        invariant Pending(o.infos, n) == Pending(infos, sentInfoSize)
        invariant cur == o.(infos := infos, reports := o.reports + ReportsOf(o.infos[..done]))
        invariant Model() == SendAll(cur, after)
        invariant rearmed >= old(rearmed)
        decreases |infos|
      {
        var info := infos[0];
        FirstInfo(infos, sentInfoSize);
        sentInfoSize := sentInfoSize - info.remain;
        if sentInfoSize < 0 {
          ghost var cut := Pending(infos, sentInfoSize + info.remain);
          infos := [info.(remain := -sentInfoSize)] + infos[1..];
          assert infos == cut;
          SendAllApart(cur, cur, after);
          SendAllApart(cur, cur.(infos := infos), after);
          return;
        }
        var more := ReportFirst(cur, after);
        ReportsNext(o.infos, done);
        cur := cur.(infos := infos, reports := cur.reports + [Report(info.id, info.begin, info.length)]);
        after := after + more;
        done := done + 1;
      }
      NoInfos(sentInfoSize);
      assert o.infos[..done] == o.infos;
    }

    /** handle_output.  `before` is what gets sent before the buffers are looked at,
        `after` what gets sent later; `r` is the kernel's answer.  The second look
        at the buffers comes before the bytes taken are erased, so it always finds
        some and a WRITE event is always asked for. */
    method HandleOutput() returns (before: seq<Msg>, r: Outcome, after: seq<Msg>)
      modifies this
      ensures var o := SendAll(old(Model()), before);
              && (HasBuffer(o) ==> Possible(o, r))
              && Model() == SendAll(Output(o, r), after)
              && (Rearms(o, r) ==> rearmed > old(rearmed))
    {
      before, r, after := [], Again, [];
      if setOutputEvent {
        setOutputEvent := false;
      }
      before := Others();
      ghost var o := SendAll(old(Model()), before);
      var has := HasBufferToSend();
      if !has {
        return;
      }
      r := *;
      if r.Sent? && (r.n == 0 || r.n > |sendBuffer|) {
        r := Failed;
      }
      match r {
        case Again =>
          rearmed := rearmed + 1;
        case Failed =>
          after := Others();
        case Sent(n) =>
          wire := wire + sendBuffer[..n];
          ghost var taken := Swap(o).(wire := wire);
          after := Complete(n);
          ghost var done := taken.(infos := Pending(taken.infos, n), reports := taken.reports + ReportsOf(taken.infos[..Finished(taken.infos, n)]));
          SendAllApart(done, done, after);
          has := HasBufferToSend();
          assert has;
          rearmed := rearmed + 1;
          sendBuffer := sendBuffer[n..];
          SendAllApart(done, done.(sendBuffer := sendBuffer), after);
      }
    }
  }
}
