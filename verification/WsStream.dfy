/** The incremental decoders of https1_reactor/Https1Handler.cpp and
    http1_client/Http1Client.h: frames come out of a byte stream the same however
    the stream is cut into inputs. */
module WsStream {
  import opened Bytes
  import opened WebSockets

  /** Whether the loop over a buffer ends, and how: for want of bytes, because the
      parser reads behind the buffer, or not at all, because a frame of no byte is
      taken out again and again. */
  datatype Status = Waiting | Overran | Spinning

  /** The frames taken out of a byte stream, and the bytes kept. */
  datatype Stream = Stream(frames: seq<WebSocket>, rest: seq<Byte>, status: Status)

  const EMPTY := Stream([], [], Waiting)

  // ------------------------------------------------------------- specification

  /** All the frames of a buffer. */
  function DecodeAll(buf: seq<Byte>): Stream
    decreases |buf|
  {
    match Decode(buf)
    case Incomplete(_) => Stream([], buf, Waiting)
    case Overrun => Stream([], buf, Overran)
    case Frame(ws) =>
      FrameFacts(buf);
      if ws.buffer == [] then Stream([], buf, Spinning)
      else After([ws], DecodeAll(buf[|ws.buffer|..]))
  }

  function After(frames: seq<WebSocket>, s: Stream): Stream {
    s.(frames := frames + s.frames)
  }

  /** One input. */
  function Feed(s: Stream, data: seq<Byte>): Stream {
    if !s.status.Waiting? then s.(rest := s.rest + data)
    else After(s.frames, DecodeAll(s.rest + data))
  }

  function FeedAll(s: Stream, inputs: seq<seq<Byte>>): Stream
    decreases |inputs|
  {
    if inputs == [] then s else FeedAll(Feed(s, inputs[0]), inputs[1..])
  }

  // --------------------------------------------------------- chunk independence

  lemma AfterAfter(f: seq<WebSocket>, g: seq<WebSocket>, s: Stream)
    ensures After(f, After(g, s)) == After(f + g, s)
    ensures After([], s) == s
  {
    assert f + (g + s.frames) == (f + g) + s.frames;
    assert [] + s.frames == s.frames;
  }

  lemma UnfoldFrame(buf: seq<Byte>, ws: WebSocket)
    requires Decode(buf) == Frame(ws) && ws.buffer != []
    ensures |ws.buffer| <= |buf| && DecodeAll(buf) == After([ws], DecodeAll(buf[|ws.buffer|..]))
  {
    FrameFacts(buf);
  }

  /** A buffer from which the loop gets no further. */
  predicate Stuck(buf: seq<Byte>) {
    Decode(buf).Frame? ==> Decode(buf).ws.buffer == []
  }

  function StatusOf(buf: seq<Byte>): Status {
    match Decode(buf)
    case Incomplete(_) => Waiting
    case Overrun => Overran
    case Frame(_) => Spinning
  }

  lemma UnfoldStop(buf: seq<Byte>)
    requires Stuck(buf)
    ensures DecodeAll(buf) == Stream([], buf, StatusOf(buf))
  {
  }

  lemma FeedAfter(frames: seq<WebSocket>, s: Stream, data: seq<Byte>)
    ensures Feed(After(frames, s), data) == After(frames, Feed(s, data))
  {
    if s.status.Waiting? {
      AfterAfter(frames, s.frames, DecodeAll(s.rest + data));
    }
  }

  /** Decoding some bytes and then the rest is decoding all of them. */
  lemma DecodeMore(buf: seq<Byte>, more: seq<Byte>)
    ensures DecodeAll(buf + more) == Feed(DecodeAll(buf), more)
    decreases |buf|, 1
  {
    if !Stuck(buf) {
      DecodeMoreFrame(buf, more, Decode(buf).ws);
    } else {
      UnfoldStop(buf);
      if Decode(buf).Incomplete? {
        AfterAfter([], [], DecodeAll(buf + more));
      } else {
        AnswerStays(buf, more);
        UnfoldStop(buf + more);
      }
    }
  }

  lemma {:induction false} DecodeMoreFrame(buf: seq<Byte>, more: seq<Byte>, ws: WebSocket)
    requires Decode(buf) == Frame(ws) && ws.buffer != []
    ensures DecodeAll(buf + more) == Feed(DecodeAll(buf), more)
    decreases |buf|, 0
  {
    hide Decode;
    var k := |ws.buffer|;
    UnfoldFrame(buf, ws);
    AnswerStays(buf, more);
    UnfoldFrame(buf + more, ws);
    assert (buf + more)[k..] == buf[k..] + more;
    DecodeMore(buf[k..], more);
    FeedAfter([ws], DecodeAll(buf[k..]), more);
  }

  lemma FeedMore(s: Stream, data: seq<Byte>, more: seq<Byte>)
    ensures Feed(Feed(s, data), more) == Feed(s, data + more)
  {
    assert (s.rest + data) + more == s.rest + (data + more);
    if s.status.Waiting? {
      DecodeMore(s.rest + data, more);
      FeedAfter(s.frames, DecodeAll(s.rest + data), more);
    }
  }

  /** A stream as the loop leaves it. */
  predicate Settled(s: Stream) {
    Stuck(s.rest) && s.status == StatusOf(s.rest)
  }

  lemma FeedNothing(s: Stream)
    requires Settled(s)
    ensures Feed(s, []) == s
  {
    assert s.rest + [] == s.rest;
    assert s.frames + [] == s.frames;
  }

  lemma {:induction false} DecodeSettles(buf: seq<Byte>)
    ensures Settled(DecodeAll(buf))
    decreases |buf|
  {
    if !Stuck(buf) {
      FrameFacts(buf);
      DecodeSettles(buf[|Decode(buf).ws.buffer|..]);
    }
  }

  /** Feeding keeps a stream settled. */
  lemma FeedSettles(s: Stream, data: seq<Byte>)
    requires Settled(s)
    ensures Settled(Feed(s, data))
  {
    if s.status.Waiting? {
      DecodeSettles(s.rest + data);
    } else {
      AnswerStays(s.rest, data);
    }
  }

  /** However a byte stream is cut into inputs, the frames delivered and the bytes
      left over are those of feeding it all at once. */
  lemma {:induction false} ChunkIndependence(s: Stream, inputs: seq<seq<Byte>>)
    requires Settled(s)
    ensures FeedAll(s, inputs) == Feed(s, Concat(inputs))
    decreases |inputs|
  {
    if inputs == [] {
      FeedNothing(s);
    } else {
      FeedSettles(s, inputs[0]);
      ChunkIndependence(Feed(s, inputs[0]), inputs[1..]);
      FeedMore(s, inputs[0], Concat(inputs[1..]));
    }
  }

  lemma EmptySettled()
    ensures Settled(EMPTY)
  {
  }

  /** Two ways of cutting the same bytes make no difference. */
  lemma CutsAgree(inputs: seq<seq<Byte>>, inputs': seq<seq<Byte>>)
    requires Concat(inputs) == Concat(inputs')
    ensures FeedAll(EMPTY, inputs) == FeedAll(EMPTY, inputs')
  {
    EmptySettled();
    ChunkIndependence(EMPTY, inputs);
    ChunkIndependence(EMPTY, inputs');
  }

  // ---------------------------------------------------------- whether the loop ends

  /** The buffer after one round of the loop, and after n. */
  function NextBuffer(buf: seq<Byte>): seq<Byte> {
    if Decode(buf).Frame? then
      FrameFacts(buf);
      buf[|Decode(buf).ws.buffer|..]
    else buf
  }

  function AfterRounds(buf: seq<Byte>, n: nat): seq<Byte> {
    if n == 0 then buf else AfterRounds(NextBuffer(buf), n - 1)
  }

  /** Some round finds no frame. */
  ghost predicate Ends(buf: seq<Byte>) {
    exists n: nat :: !Decode(AfterRounds(buf, n)).Frame?
  }

  /** Some round comes upon an unmasked header announcing 2^64 - 10 bytes. */
  ghost predicate MeetsSticking(buf: seq<Byte>) {
    exists n: nat :: Sticks(AfterRounds(buf, n))
  }

  lemma {:induction false} StickingRounds(buf: seq<Byte>, n: nat)
    requires Sticks(buf)
    ensures AfterRounds(buf, n) == buf
  {
    NoByteTakenIff(buf);
    if n > 0 {
      assert NextBuffer(buf) == buf;
      StickingRounds(buf, n - 1);
    }
  }

  lemma OneRoundMore(buf: seq<Byte>, n: nat)
    ensures AfterRounds(buf, n + 1) == AfterRounds(NextBuffer(buf), n)
  {
  }

  /** The loop over any buffer ends if and only if no round comes upon an unmasked
      header announcing 2^64 - 10 bytes; and if it does not end, it stays there. */
  lemma {:induction false} LoopEndsIff(buf: seq<Byte>)
    ensures Ends(buf) <==> !MeetsSticking(buf)
    ensures Ends(buf) <==> !DecodeAll(buf).status.Spinning?
    decreases |buf|
  {
    hide Decode, Sticks;
    assert AfterRounds(buf, 0) == buf;
    NoByteTakenIff(buf);
    if Sticks(buf) {
      UnfoldStop(buf);
      forall n: nat
        ensures Decode(AfterRounds(buf, n)).Frame?
      {
        StickingRounds(buf, n);
      }
    } else if Decode(buf).Frame? {
      UnfoldFrame(buf, Decode(buf).ws);
      RoundsAfterFrame(buf);
      LoopEndsIff(NextBuffer(buf));
    } else {
      UnfoldStop(buf);
      forall n: nat
        ensures !Sticks(AfterRounds(buf, n))
      {
        NoFrameRounds(buf, n);
      }
    }
  }

  lemma {:induction false} NoFrameRounds(buf: seq<Byte>, n: nat)
    requires !Decode(buf).Frame?
    ensures AfterRounds(buf, n) == buf
  {
    if n > 0 { NoFrameRounds(buf, n - 1); }
  }

  lemma RoundsAfterFrame(buf: seq<Byte>)
    requires Decode(buf).Frame? && !Sticks(buf)
    ensures Ends(buf) <==> Ends(NextBuffer(buf))
    ensures MeetsSticking(buf) <==> MeetsSticking(NextBuffer(buf))
  {
    hide Decode, Sticks;
    assert AfterRounds(buf, 0) == buf;
    var next := NextBuffer(buf);
    forall n: nat
      ensures AfterRounds(buf, n + 1) == AfterRounds(next, n)
    {
      OneRoundMore(buf, n);
    }
    forall n: nat | n > 0
      ensures AfterRounds(buf, n) == AfterRounds(next, n - 1)
    {
      OneRoundMore(buf, n - 1);
    }
    if n: nat :| !Decode(AfterRounds(buf, n)).Frame? {
      assert !Decode(AfterRounds(next, n - 1)).Frame?;
    }
    if n: nat :| Sticks(AfterRounds(next, n)) {
      assert Sticks(AfterRounds(buf, n + 1));
    }
    if n: nat :| Sticks(AfterRounds(buf, n)) {
      assert n > 0;
      assert Sticks(AfterRounds(next, n - 1));
    }
  }

  /** Ten bytes in one input, and handle_input_ws does not return. */
  lemma StuckNeverEnds()
    ensures !Ends(STUCK) && Feed(EMPTY, STUCK) == Stream([], STUCK, Spinning)
  {
    StuckSticks();
    LoopEndsIff(STUCK);
    assert AfterRounds(STUCK, 0) == STUCK;
    UnfoldStop(STUCK);
    assert [] + STUCK == STUCK;
  }

  // ------------------------------------------------------- a whole conversation

  /** The arguments of one make. */
  datatype Message = Message(opcode: Byte, last: bool, key: Option<MaskKey>, payload: seq<Byte>) {
    predicate Sendable() {
      opcode < 16 && HeaderSize(|payload|, key.Some?) + |payload| < TWO64
    }

    function Packet(): seq<Byte> {
      Encode(opcode, last, key, payload)
    }
  }

  function Packets(ms: seq<Message>): seq<Byte> {
    if ms == [] then [] else ms[0].Packet() + Packets(ms[1..])
  }

  /** These frames stand for these messages, one for one and in order. */
  ghost predicate Deliver(frames: seq<WebSocket>, ms: seq<Message>) {
    && |frames| == |ms|
    && forall i :: 0 <= i < |ms| ==> Carries(frames[i], ms[i].opcode, ms[i].last, ms[i].key, ms[i].payload)
  }

  lemma {:induction false} DecodePackets(ms: seq<Message>)
    requires forall m :: m in ms ==> m.Sendable()
    ensures var s := DecodeAll(Packets(ms)); Deliver(s.frames, ms) && s.rest == [] && s.status.Waiting?
    decreases |ms|
  {
    if ms != [] {
      var m, rest := ms[0], Packets(ms[1..]);
      assert m in ms && m.Sendable();
      RoundTrip(m.opcode, m.last, m.key, m.payload, rest);
      var ws := Decode(m.Packet() + rest).ws;
      UnfoldFrame(m.Packet() + rest, ws);
      assert (m.Packet() + rest)[|m.Packet()|..] == rest;
      DecodePackets(ms[1..]);
      DeliverMore(ws, DecodeAll(rest).frames, ms);
    }
  }

  lemma DeliverMore(ws: WebSocket, frames: seq<WebSocket>, ms: seq<Message>)
    requires ms != [] && Deliver(frames, ms[1..])
    requires Carries(ws, ms[0].opcode, ms[0].last, ms[0].key, ms[0].payload)
    ensures Deliver([ws] + frames, ms)
  {
    forall i | 1 <= i < |ms|
      ensures Carries(([ws] + frames)[i], ms[i].opcode, ms[i].last, ms[i].key, ms[i].payload)
    {
      assert ([ws] + frames)[i] == frames[i - 1] && ms[1..][i - 1] == ms[i];
    }
  }

  /** Messages made at one end, sent as a stream and received in any pieces, are
      delivered at the other end, each once, in order, with nothing left over. */
  lemma Conversation(ms: seq<Message>, inputs: seq<seq<Byte>>)
    requires forall m :: m in ms ==> m.Sendable()
    requires Concat(inputs) == Packets(ms)
    ensures var s := FeedAll(EMPTY, inputs); Deliver(s.frames, ms) && s.rest == [] && s.status.Waiting?
  {
    EmptySettled();
    ChunkIndependence(EMPTY, inputs);
    DecodePackets(ms);
    assert [] + Packets(ms) == Packets(ms);
    assert [] + DecodeAll(Packets(ms)).frames == DecodeAll(Packets(ms)).frames;
  }
}
