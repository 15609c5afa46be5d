/** The HTTP/1.1 parser as it runs, over a header object, and the server's input
    loop on top of it: https1_reactor/Https1Handler.cpp. */
module Http1Stream {
  import opened Bytes
  import opened HttpText
  import opened HttpHeaders
  import opened Http1
  import opened Http1Laws

  // ------------------------------------------------------------------ the parser

  lemma {:induction false} FieldsStep(lines: string, pos: nat, fs: seq<Field>)
    requires pos <= |lines|
    ensures var e := FindFrom(lines, CRLF, pos);
            && (e.None? ==> ParseFields(lines[pos..], fs) == Some(fs))
            && (e.Some? ==>
                  var line := lines[pos..e.value];
                  var k := Find(line, ": ");
                  ParseFields(lines[pos..], fs) ==
                  if k.None? then None else ParseFields(lines[e.value + 2..], Added(fs, line[..k.value], line[k.value + 2..])))
  {
    hide Find, Added;
    var e := FindFrom(lines, CRLF, pos);
    if e.Some? {
      var i := e.value - pos;
      assert lines[pos..][..i] == lines[pos..e.value] && lines[pos..][i + 2..] == lines[e.value + 2..];
    }
  }

  /** parse_header: Some(true) with the fields added, Some(false) for a line without
      ": ", and nothing for less than a line. */
  method ParseHeader(header: HttpHeader, lines: string) returns (r: Option<bool>)
    requires header.Valid()
    modifies header
    ensures header.Valid()
    ensures r.None? <==> |lines| < 2
    ensures r.Some? ==> var fs := ParseFields(lines, old(header.Fields()));
                        r.value == fs.Some? && (fs.Some? ==> header.Fields() == fs.value)
  {
    hide ParseFields, Find, FindFrom, Added, Has, HttpHeader.Valid, HttpHeader.Fields;
    if |lines| < 2 {
      return None;
    }
    var posSta := 0;
    var posEnd := FindFrom(lines, CRLF, posSta);
    assert lines[0..] == lines;
    while posEnd.Some?
      invariant header.Valid() && 0 <= posSta <= |lines| && posEnd == FindFrom(lines, CRLF, posSta)
      invariant ParseFields(lines, old(header.Fields())) == ParseFields(lines[posSta..], header.Fields())
      decreases |lines| - posSta
    {
      FieldsStep(lines, posSta, header.Fields());
      var line := lines[posSta..posEnd.value];
      var nameEnd := Find(line, ": ");
      if nameEnd.None? {
        return Some(false);
      }
      var _ := header.Add(line[..nameEnd.value], line[nameEnd.value + 2..]);
      posSta := posEnd.value + 2;
      posEnd := FindFrom(lines, CRLF, posSta);
    }
    FieldsStep(lines, posSta, header.Fields());
    r := Some(true);
  }

  /** parse_body */
  method ReadBody(header: HttpHeader, rest: string) returns (body: Option<string>)
    requires header.Valid()
    ensures body == ParseBody(header.Fields(), rest)
  {
    hide StrToLL, Values, HasName, Has;
    ghost var fs := header.Fields();
    var found := header.ContainsName(LENGTH);
    if found {
      var value := header.Get(LENGTH);
      GotIsFirst(fs, LENGTH, value);
      var contentLength := StrToLL(value) % TWO64;
      if |rest| < contentLength {
        return None;
      }
      return Some(rest[..contentLength]);
    }
    var chunked := header.ContainsIgnoreCase("transfer-encoding", "chunked");
    if chunked {
      var minSize := 1000;
      if |rest| < minSize {
        minSize := |rest|;
      }
      var end := RFind(rest[|rest| - minSize..], LAST_CHUNK);
      if end.None? {
        return None;
      }
      return Some(rest[..end.value + (|rest| - minSize) + 2 + 1 + 4]);
    }
    body := Some(rest);
  }

  /** parse */
  method ParseMessage(kind: Kind, message: string) returns (r: Outcome)
    ensures r == Parse(kind, message)
  {
    hide Find, ParseParameter, ParseFields, ParseBody;
    var parameterEnd := Find(message, CRLF);
    if parameterEnd.None? {
      return Incomplete;
    }
    var params := ParseParameter(kind, message[..parameterEnd.value]);
    if params.None? {
      return Error;
    }
    var headerEnd := Find(message, BLANK);
    if headerEnd.None? {
      return Incomplete;
    }
    BlankHasCrlf(message);
    var header := new HttpHeader();
    if parameterEnd.value < headerEnd.value {
      var ok := ParseHeader(header, message[parameterEnd.value + 2..headerEnd.value + 2]);
      if ok.None? {
        return Incomplete;
      }
      if !ok.value {
        return Error;
      }
    }
    var body := ReadBody(header, message[headerEnd.value + 4..]);
    if body.None? {
      return Incomplete;
    }
    BodyIsPrefix(header.Fields(), message[headerEnd.value + 4..]);
    var fields := header.List();
    r := Done(params.value, fields, body.value, message[..headerEnd.value + 4 + |body.value|]);
  }

  /** packet(true): the header object is given a content-length if it has none. */
  method PacketOf(p: Params, reason: string, header: HttpHeader, body: string) returns (packet: string)
    requires header.Valid()
    modifies header
    ensures header.Valid() && header.Fields() == WithLength(old(header.Fields()), |body|)
    ensures packet == Packet(p, reason, old(header.Fields()), body)
  {
    hide CountName, Replaced, Text, ValueSize, FirstLine, Decimal;
    var n := header.Count(LENGTH);
    if n == 0 {
      header.Set(LENGTH, Decimal(|body|));
    }
    var text := header.ToString();
    packet := FirstLine(p, reason) + CRLF + text + CRLF;
    var size := header.Size();
    if size > 0 {
      packet := packet + CRLF;
    }
    if |body| == 0 {
      assert body == "";
      assert packet + body == packet;
      return;
    }
    packet := packet + body;
  }

  // ------------------------------------------------------------- the input loops

  /** What a connection has received: the bytes kept, the messages handed on, and
      how often it has reported an error. */
  datatype Input = Input(buffer: string, messages: seq<Outcome>, errors: nat)

  const EMPTY := Input("", [], 0)

  /** One input.  The server takes requests and drops its buffer at an error; the
      client takes responses and keeps it. */
  ghost function Feed(kind: Kind, s: Input, data: string): Input {
    var buf := s.buffer + data;
    match Parse(kind, buf)
    case Incomplete => s.(buffer := buf)
    case Error => Input(if kind.Requests? then "" else buf, s.messages, s.errors + 1)
    case Done(_, _, _, _) => Input("", s.messages + [Parse(kind, buf)], s.errors)
  }

  ghost function FeedAll(kind: Kind, s: Input, inputs: seq<string>): Input
    decreases |inputs|
  {
    if inputs == [] then s else FeedAll(kind, Feed(kind, s, inputs[0]), inputs[1..])
  }

  /** Nothing more arrives: only empty inputs. */
  lemma {:induction false} FeedNothing(kind: Kind, s: Input, inputs: seq<string>)
    requires s.buffer == "" && Concat(inputs) == ""
    ensures FeedAll(kind, s, inputs) == s
    decreases |inputs|
  {
    hide ParseAt, ParseParameter;
    if inputs != [] {
      assert s.buffer + inputs[0] == "";
      assert Find("", CRLF).None?;
      FeedNothing(kind, Feed(kind, s, inputs[0]), inputs[1..]);
    }
  }

  /** A message arriving in pieces, with its first bytes already kept. */
  lemma {:induction false} FeedRest(kind: Kind, s: Input, inputs: seq<string>, r: Outcome)
    requires r.Done? && Framed(kind, r.raw, r) && |s.buffer| < |r.raw|
    requires s.buffer + Concat(inputs) == r.raw
    ensures FeedAll(kind, s, inputs) == Input("", s.messages + [r], s.errors)
    decreases |inputs|
  {
    hide Parse, HasName;
    var buf := s.buffer + inputs[0];
    assert buf + Concat(inputs[1..]) == r.raw;
    if |buf| < |r.raw| {
      PrefixIncomplete(kind, r.raw, r, |buf|);
      assert r.raw[..|buf|] == buf;
      FeedRest(kind, Feed(kind, s, inputs[0]), inputs[1..], r);
    } else {
      assert Concat(inputs[1..]) == "" && buf == r.raw;
      FeedNothing(kind, Feed(kind, s, inputs[0]), inputs[1..]);
    }
  }

  /** However a message with a content-length is cut into inputs, it is handled
      exactly once, without an error, and nothing stays in the buffer. */
  lemma ExactlyOneMessage(kind: Kind, inputs: seq<string>, r: Outcome)
    requires Framed(kind, Concat(inputs), r) && r.raw == Concat(inputs)
    ensures FeedAll(kind, EMPTY, inputs) == Input("", [r], 0)
  {
    hide Parse, HasName;
    RawNotEmpty(kind, r.raw, r);
    assert EMPTY.buffer + Concat(inputs) == r.raw;
    FeedRest(kind, EMPTY, inputs, r);
    assert [] + [r] == [r];
  }

  lemma RawNotEmpty(kind: Kind, m: string, r: Outcome)
    requires Framed(kind, m, r)
    ensures r.raw != ""
  {
    hide Parse, HasName;
    var e, h := FramedParts(kind, m, r);
  }

  /** Bytes behind the message in the same input are lost: the buffer is cleared. */
  lemma RestIsLost(kind: Kind, r: Outcome, more: string)
    requires r.Done? && Framed(kind, r.raw, r)
    ensures Feed(kind, EMPTY, r.raw + more) == Input("", [r], 0)
  {
    hide Parse, HasName;
    SelfDelimiting(kind, r.raw, r, more);
    assert "" + (r.raw + more) == r.raw + more;
    assert [] + [r] == [r];
  }

  /** Some input ends where the first n bytes end. */
  ghost predicate EndsAt(inputs: seq<string>, n: nat) {
    exists k :: 0 <= k <= |inputs| && |Concat(inputs[..k])| == n
  }

  /** A message handed on was in what came in. */
  lemma {:induction false} HandedOnFits(kind: Kind, s: Input, inputs: seq<string>, k: nat)
    requires |s.messages| <= k < |FeedAll(kind, s, inputs).messages|
    ensures var r := FeedAll(kind, s, inputs).messages[k];
            r.Done? && |r.raw| <= |s.buffer| + |Concat(inputs)|
    decreases |inputs|
  {
    hide Parse;
    var s1 := Feed(kind, s, inputs[0]);
    ParsedFits(kind, s.buffer + inputs[0]);
    MessagesStay(kind, s1, inputs[1..]);
    if |s1.messages| <= k {
      HandedOnFits(kind, s1, inputs[1..], k);
    }
  }

  lemma ParsedFits(kind: Kind, m: string)
    ensures Parse(kind, m).Done? ==> |Parse(kind, m).raw| <= |m|
  {
    hide ParseParameter, ParseFields, ParseBody, Find;
    if Parse(kind, m).Done? {
      BodyIsPrefix(Parse(kind, m).fields, m[Find(m, BLANK).value + 4..]);
    }
  }

  lemma {:induction false} MessagesStay(kind: Kind, s: Input, inputs: seq<string>)
    ensures s.messages <= FeedAll(kind, s, inputs).messages
    decreases |inputs|
  {
    hide Parse;
    if inputs != [] {
      MessagesStay(kind, Feed(kind, s, inputs[0]), inputs[1..]);
    }
  }

  /** Two messages sent one behind the other are both handed on, and nothing else,
      exactly when some input ends between them. */
  lemma {:induction false} BothHandedOnIff(kind: Kind, s: Input, inputs: seq<string>, r: Outcome, r': Outcome)
    requires r.Done? && Framed(kind, r.raw, r) && r'.Done? && Framed(kind, r'.raw, r')
    requires |s.buffer| < |r.raw| && s.buffer + Concat(inputs) == r.raw + r'.raw
    ensures FeedAll(kind, s, inputs) == Input("", s.messages + [r, r'], s.errors) <==> EndsAt(inputs, |r.raw| - |s.buffer|)
    decreases |inputs|
  {
    hide Parse, HasName, Framed, EndsAt;
    var buf, rest := s.buffer + inputs[0], inputs[1..];
    var whole := r.raw + r'.raw;
    assert buf + Concat(rest) == whole;
    EndsLater(inputs, |r.raw| - |s.buffer|);
    if |buf| < |r.raw| {
      PrefixIncomplete(kind, r.raw, r, |buf|);
      assert whole[..|buf|] == buf;
      assert r.raw[..|buf|] == whole[..|buf|];
      BothHandedOnIff(kind, Feed(kind, s, inputs[0]), rest, r, r');
    } else {
      FirstHandedOn(kind, s, inputs[0], rest, r, r');
    }
  }

  /** The input that completes the first of them. */
  lemma FirstHandedOn(kind: Kind, s: Input, data: string, rest: seq<string>, r: Outcome, r': Outcome)
    requires r.Done? && Framed(kind, r.raw, r) && r'.Done? && Framed(kind, r'.raw, r')
    requires |s.buffer + data| >= |r.raw| && s.buffer + data + Concat(rest) == r.raw + r'.raw
    ensures FeedAll(kind, Feed(kind, s, data), rest) == Input("", s.messages + [r, r'], s.errors) <==> |s.buffer + data| == |r.raw|
    ensures EndsAt(rest, 0)
  {
    hide Parse, HasName, Framed;
    assert rest[..0] == [] && |Concat(rest[..0])| == 0;
    var buf, whole := s.buffer + data, r.raw + r'.raw;
    var more := buf[|r.raw|..];
    assert whole[..|buf|] == buf;
    assert buf[..|r.raw|] == whole[..|r.raw|] == r.raw;
    assert buf == r.raw + more;
    assert more + Concat(rest) == whole[|r.raw|..] == r'.raw;
    SelfDelimiting(kind, r.raw, r, more);
    if more == "" {
      RawNotEmpty(kind, r'.raw, r');
      FeedRest(kind, Feed(kind, s, data), rest, r');
      assert s.messages + [r] + [r'] == s.messages + [r, r'];
    } else {
      SecondIsLost(kind, s, Feed(kind, s, data), rest, r, r');
    }
  }

  lemma SecondIsLost(kind: Kind, s: Input, s1: Input, rest: seq<string>, r: Outcome, r': Outcome)
    requires s1 == Input("", s.messages + [r], s.errors)
    requires r'.Done? && |Concat(rest)| < |r'.raw|
    ensures FeedAll(kind, s1, rest) != Input("", s.messages + [r, r'], s.errors)
  {
    hide Feed;
    var k := |s.messages| + 1;
    if |FeedAll(kind, s1, rest).messages| > k {
      HandedOnFits(kind, s1, rest, k);
      assert (s.messages + [r, r'])[k] == r';
    }
  }

  lemma EndsLater(inputs: seq<string>, n: nat)
    requires inputs != [] && n > 0
    ensures EndsAt(inputs, n) <==> |inputs[0]| <= n && EndsAt(inputs[1..], n - |inputs[0]|)
  {
    forall k | 0 <= k < |inputs|
      ensures |Concat(inputs[..k + 1])| == |inputs[0]| + |Concat(inputs[1..][..k])|
    {
      assert inputs[..k + 1][1..] == inputs[1..][..k];
    }
    if k :| 0 <= k <= |inputs| && |Concat(inputs[..k])| == n {
      assert inputs[..0] == [] && k > 0;
      assert |Concat(inputs[1..][..k - 1])| == n - |inputs[0]|;
    }
    if |inputs[0]| <= n && EndsAt(inputs[1..], n - |inputs[0]|) {
      var k :| 0 <= k <= |inputs[1..]| && |Concat(inputs[1..][..k])| == n - |inputs[0]|;
      assert |Concat(inputs[..k + 1])| == n;
    }
  }

  /** A malformed message stays malformed, whatever follows. */
  lemma ErrorStays(kind: Kind, m: string, more: string)
    requires Parse(kind, m) == Error
    ensures Parse(kind, m + more) == Error
  {
    hide Find, ParseParameter, ParseFields, ParseBody;
    FindInMore(m, CRLF, more);
    var e := Find(m, CRLF).value;
    assert (m + more)[..e] == m[..e];
    if ParseParameter(kind, m[..e]).Some? {
      FindInMore(m, BLANK, more);
      BlankHasCrlf(m);
      var h := Find(m, BLANK).value;
      assert e < h ==> (m + more)[e + 2..h + 2] == m[e + 2..h + 2];
    }
  }

  /** So a client that has met a malformed response reports an error for every
      input from then on and never hands on a message again. */
  lemma {:induction false} ClientStuck(s: Input, inputs: seq<string>)
    requires Parse(Responses, s.buffer) == Error
    ensures FeedAll(Responses, s, inputs) == Input(s.buffer + Concat(inputs), s.messages, s.errors + |inputs|)
    decreases |inputs|
  {
    hide Parse;
    if inputs == [] {
      assert s.buffer + "" == s.buffer;
    } else {
      ErrorStays(Responses, s.buffer, inputs[0]);
      ClientStuck(Feed(Responses, s, inputs[0]), inputs[1..]);
      assert (s.buffer + inputs[0]) + Concat(inputs[1..]) == s.buffer + (inputs[0] + Concat(inputs[1..]));
    }
  }

  /** handle_recv_http1 of the client. */
  class Http1Client {
    var bufferH1: string

    /** What has been handed to on_response and on_error_http11. */
    ghost var responses: seq<Outcome>
    ghost var errors: nat

    ghost function Model(): Input
      reads this
    {
      Input(bufferH1, responses, errors)
    }

    constructor ()
      ensures Model() == EMPTY
    {
      bufferH1, responses, errors := "", [], 0;
    }

    method HandleRecvHttp1(data: string)
      modifies this
      ensures Model() == Feed(Responses, old(Model()), data)
    {
      hide Parse;
      bufferH1 := bufferH1 + data;
      var r := ParseMessage(Responses, bufferH1);
      if r.Incomplete? {
        return;
      }
      if r.Error? {
        errors := errors + 1;
        return;
      }
      bufferH1 := "";
      responses := responses + [r];
    }
  }
}
