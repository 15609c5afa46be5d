/** Where a message's body ends: by its content-length, by the last chunk, or with
    whatever has come; and what that makes of a message that arrives in pieces. */
module Http1Bodies {
  import opened Bytes
  import opened HttpText
  import opened HttpHeaders
  import opened Http1
  import opened Http1Laws
  import opened Http1RoundTrip
  import opened Http1Stream

  // --------------------------------------------------------------- the last chunk

  /** The last place is the answer, and there is one exactly when there is a place. */
  lemma {:induction false} RFindIsLast(s: string, pat: string)
    ensures var r := RFind(s, pat);
            && (r.Some? ==> forall i: int :: i > r.value ==> !Stands(s, pat, i))
            && (r.None? ==> forall i: int :: !Stands(s, pat, i))
  {
    if |s| >= |pat| && s != [] && !Stands(s, pat, |s| - |pat|) {
      var t := s[..|s| - 1];
      RFindIsLast(t, pat);
      forall i: int | Stands(s, pat, i)
        ensures Stands(t, pat, i)
      {
        PrefixStands(s, pat, |s| - 1, i);
      }
    }
  }

  /** Where the terminator may stand: not before the last 1000 bytes. */
  predicate LastChunkAt(rest: string, i: int) {
    Stands(rest, LAST_CHUNK, i) && i + 1000 >= |rest|
  }

  lemma TailStands(rest: string, from: nat, i: int)
    requires from <= |rest|
    ensures i >= 0 ==> (Stands(rest[from..], LAST_CHUNK, i) <==> Stands(rest, LAST_CHUNK, from + i))
  {
    assert rest == rest[..from] + rest[from..];
    if i >= 0 { ShiftStands(rest[..from], rest[from..], LAST_CHUNK, i); }
  }

  /** A chunked body ends behind the last terminator within the last 1000 bytes, and
      without one there the message is incomplete. */
  lemma ChunkedBodyIs(rest: string)
    ensures ChunkedBody(rest).None? <==> forall i: int :: !LastChunkAt(rest, i)
    ensures ChunkedBody(rest).Some? ==>
              var k := |ChunkedBody(rest).value| - 7;
              && k >= 0 && k + 7 <= |rest| && ChunkedBody(rest).value == rest[..k + 7]
              && LastChunkAt(rest, k) && forall i: int :: i > k ==> !LastChunkAt(rest, i)
  {
    hide RFind, Stands;
    var from := if |rest| < 1000 then 0 else |rest| - 1000;
    RFindIsLast(rest[from..], LAST_CHUNK);
    var e := RFind(rest[from..], LAST_CHUNK);
    ChunkFits(rest[from..]);
    forall i: int
      ensures LastChunkAt(rest, i) <==> i >= from && Stands(rest[from..], LAST_CHUNK, i - from)
    {
      TailStands(rest, from, i - from);
      NotNegative(rest, i);
    }
    if e.Some? { assert LastChunkAt(rest, from + e.value); }
  }

  lemma ChunkFits(s: string)
    ensures RFind(s, LAST_CHUNK).Some? ==> RFind(s, LAST_CHUNK).value + 7 <= |s|
  {
  }

  lemma NotNegative(s: string, i: int)
    ensures Stands(s, LAST_CHUNK, i) ==> i >= 0
  {
  }

  // ------------------------------------------------------------------ the three ways

  /** Of a message without a content-length that is not chunked, nothing says where
      it ends. */
  ghost predicate Open(fs: seq<Field>) {
    !HasName(fs, LENGTH) && !Chunked(fs)
  }

  /** What is handed on: the bytes up to the end of the body, and of them the body is
      what stands behind the blank line. */
  lemma BodyIs(kind: Kind, m: string)
    requires Parse(kind, m).Done?
    ensures var r, h := Parse(kind, m), Find(m, BLANK);
            && h.Some? && h.value + 4 + |r.body| <= |m|
            && r.raw == m[..h.value + 4 + |r.body|] && r.body == m[h.value + 4..][..|r.body|]
            && (HasName(r.fields, LENGTH) ==> |r.body| == ContentLength(r.fields))
            && (!HasName(r.fields, LENGTH) && Chunked(r.fields) ==> ChunkedBody(m[h.value + 4..]) == Some(r.body))
            && (Open(r.fields) ==> r.raw == m && r.body == m[h.value + 4..])
  {
    hide Find, ParseParameter, ParseFields, HasName, Chunked, ContentLength, ChunkedBody;
    BlankHasCrlf(m);
    var h := Find(m, BLANK).value;
    BodyIsPrefix(Parse(kind, m).fields, m[h + 4..]);
  }

  /** The message of the source's own kind, chunked: it ends behind the last chunk,
      and what follows the last one found within 1000 bytes is not part of it. */
  lemma ChunkedEnds(kind: Kind, m: string)
    requires Parse(kind, m).Done? && !HasName(Parse(kind, m).fields, LENGTH) && Chunked(Parse(kind, m).fields)
    ensures var r := Parse(kind, m);
            && |r.raw| >= 7 && r.raw[|r.raw| - 7..] == LAST_CHUNK && |m| <= |r.raw| - 7 + 1000
            && forall i: int :: i > |r.raw| - 7 ==> !Stands(m, LAST_CHUNK, i)
  {
    hide Find, Parse, HasName, Chunked, ChunkedBody, Stands;
    BodyIs(kind, m);
    var r, at := Parse(kind, m), Find(m, BLANK).value + 4;
    var rest := m[at..];
    ChunkedBodyIs(rest);
    var k := |r.body| - 7;
    TailStands(m, at, k);
    StandsThere(m, at + k);
    assert r.raw[|r.raw| - 7..] == m[at + k..at + k + 7];
    forall i: int | i > |r.raw| - 7
      ensures !Stands(m, LAST_CHUNK, i)
    {
      TailStands(m, at, i - at);
      assert !LastChunkAt(rest, i - at);
    }
  }

  lemma StandsThere(s: string, i: nat)
    requires Stands(s, LAST_CHUNK, i)
    ensures i + 7 <= |s| && s[i..i + 7] == LAST_CHUNK
  {
  }

  // ------------------------------------------------------------------ parsed headers

  /** No field without a name or a value, and none twice. */
  predicate Tidy(fs: seq<Field>) {
    Unique(fs) && forall i :: 0 <= i < |fs| ==> fs[i].name != "" && fs[i].value != ""
  }

  lemma AddedTidy(fs: seq<Field>, name: string, value: string)
    requires Tidy(fs)
    ensures Tidy(Added(fs, name, value))
  {
    hide Fold;
    if name != "" && value != "" && !Has(fs, name, value) {
      forall i | 0 <= i < |fs|
        ensures !(Fold(fs[i].name) == Fold(name) && fs[i].value == value)
      {
        assert Matches(fs[i], name) ==> fs[i].value != value;
      }
    }
  }

  lemma {:induction false} ParsedTidy(lines: string, fs: seq<Field>)
    requires Tidy(fs) && ParseFields(lines, fs).Some?
    ensures Tidy(ParseFields(lines, fs).value)
    decreases |lines|
  {
    hide Find, Added, Tidy;
    var e := Find(lines, CRLF);
    if e.Some? {
      var k := Find(lines[..e.value], ": ");
      AddedTidy(fs, lines[..k.value], lines[k.value + 2..e.value]);
      assert lines[..e.value][..k.value] == lines[..k.value] && lines[..e.value][k.value + 2..] == lines[k.value + 2..e.value];
      ParsedTidy(lines[e.value + 2..], Added(fs, lines[..k.value], lines[k.value + 2..e.value]));
    }
  }

  /** Whatever arrives, the header handed on is tidy. */
  lemma HeaderIsTidy(kind: Kind, m: string)
    requires Parse(kind, m).Done?
    ensures Tidy(Parse(kind, m).fields)
  {
    hide Find, ParseParameter, ParseFields, ParseBody, Tidy;
    NoFields();
    var e, h := FramedParts(kind, m, Parse(kind, m));
    if e < h { ParsedTidy(m[e + 2..h + 2], []); }
  }

  lemma NoFields()
    ensures Tidy([])
  {
  }

  // ------------------------------------------------------ messages that end anywhere

  /** More bytes only make the body of an open message longer. */
  lemma OpenGrows(kind: Kind, m: string, more: string)
    requires Parse(kind, m).Done? && Open(Parse(kind, m).fields)
    ensures var r := Parse(kind, m);
            Parse(kind, m + more) == Done(r.params, r.fields, r.body + more, m + more)
  {
    hide Parse, Find, ParseParameter, ParseFields, ParseBody, Open;
    var r, w := Parse(kind, m), m + more;
    BodyIs(kind, m);
    var e, h := FramedParts(kind, m, r);
    FindInMore(m, CRLF, more);
    FindInMore(m, BLANK, more);
    OpenBody(r.fields, w[h + 4..]);
    assert w[h + 4..] == r.body + more;
    assert w[..|m|] == m;
    CutParts(w, |m|, e, h);
    CutParts(w, |w|, e, h);
    PartsAnswer(kind, w, Done(r.params, r.fields, r.body + more, w), e, h);
  }

  lemma OpenBody(fs: seq<Field>, rest: string)
    requires Open(fs)
    ensures ParseBody(fs, rest) == Some(rest)
  {
  }

  /** Before its header is there such a message is incomplete. */
  lemma HeaderFirst(kind: Kind, m: string, k: nat)
    requires Parse(kind, m).Done? && k <= |m| && Find(m, BLANK).Some? && k < Find(m, BLANK).value + 4
    ensures Parse(kind, m[..k]) == Incomplete
  {
    hide Find, ParseParameter, ParseFields, ParseBody;
    BlankHasCrlf(m);
    FindInPrefix(m, CRLF, k);
    FindInPrefix(m, BLANK, k);
    var e := Find(m, CRLF).value;
    if e + 2 <= k { assert m[..k][..e] == m[..e]; }
  }

  lemma CutParts(m: string, k: nat, e: nat, h: nat)
    requires e <= h && h + 4 <= k <= |m|
    ensures var p := m[..k];
            && p[..e] == m[..e] && (e < h ==> p[e + 2..h + 2] == m[e + 2..h + 2])
            && p[h + 4..] == m[h + 4..k] && p[..h + 4 + |m[h + 4..k]|] == p
  {
  }

  /** From the end of its header on, every prefix of an open message is one. */
  lemma OpenPrefix(kind: Kind, m: string, k: nat)
    requires Parse(kind, m).Done? && Open(Parse(kind, m).fields)
    requires Find(m, BLANK).Some? && Find(m, BLANK).value + 4 <= k <= |m|
    ensures var r, h := Parse(kind, m), Find(m, BLANK).value;
            Parse(kind, m[..k]) == Done(r.params, r.fields, m[h + 4..k], m[..k])
  {
    hide Parse, Find, ParseParameter, ParseFields, ParseBody, Open;
    var r := Parse(kind, m);
    var e, h := FramedParts(kind, m, r);
    FindInPrefix(m, CRLF, k);
    FindInPrefix(m, BLANK, k);
    var p := m[..k];
    OpenBody(r.fields, m[h + 4..k]);
    CutParts(m, k, e, h);
    PartsAnswer(kind, p, Done(r.params, r.fields, m[h + 4..k], p), e, h);
  }

  /** Before the header is complete nothing is handed on, and nothing is lost. */
  lemma {:induction false} HeaderWaits(kind: Kind, s: Input, inputs: seq<string>, m: string)
    requires Parse(kind, m).Done? && Find(m, BLANK).Some?
    requires s.buffer + Concat(inputs) <= m && |s.buffer + Concat(inputs)| < Find(m, BLANK).value + 4
    ensures FeedAll(kind, s, inputs) == s.(buffer := s.buffer + Concat(inputs))
    decreases |inputs|
  {
    hide Parse, Find;
    if inputs == [] {
      assert s.buffer + "" == s.buffer;
    } else {
      var buf := s.buffer + inputs[0];
      assert s.buffer + Concat(inputs) == buf + Concat(inputs[1..]);
      assert m[..|buf|] == buf;
      HeaderFirst(kind, m, |buf|);
      HeaderWaits(kind, Feed(kind, s, inputs[0]), inputs[1..], m);
    }
  }

  lemma {:induction false} FeedSnoc(kind: Kind, s: Input, inputs: seq<string>, data: string)
    ensures FeedAll(kind, s, inputs + [data]) == Feed(kind, FeedAll(kind, s, inputs), data)
    decreases |inputs|
  {
    hide Feed;
    if inputs == [] {
      assert [data][1..] == [];
    } else {
      FeedSnoc(kind, Feed(kind, s, inputs[0]), inputs[1..], data);
      assert (inputs + [data])[1..] == inputs[1..] + [data];
    }
  }

  lemma {:induction false} ConcatSnoc(inputs: seq<string>, data: string)
    ensures Concat(inputs + [data]) == Concat(inputs) + data
  {
    if inputs == [] {
      assert [data][1..] == [];
    } else {
      ConcatSnoc(inputs[1..], data);
      assert (inputs + [data])[1..] == inputs[1..] + [data];
    }
  }

  /** An open message is handed on at the very input that completes its header, with
      as much of the body as has come by then: `before` are the inputs up to there. */
  lemma OpenHandedOn(kind: Kind, m: string, before: seq<string>, data: string)
    requires Parse(kind, m).Done? && Open(Parse(kind, m).fields) && Find(m, BLANK).Some?
    requires Concat(before + [data]) <= m
    requires |Concat(before)| < Find(m, BLANK).value + 4 <= |Concat(before + [data])|
    ensures var r, h, come := Parse(kind, m), Find(m, BLANK).value, Concat(before + [data]);
            FeedAll(kind, EMPTY, before + [data]) == Input("", [Done(r.params, r.fields, come[h + 4..], come)], 0)
  {
    hide Parse, Find, Open;
    ConcatSnoc(before, data);
    FeedSnoc(kind, EMPTY, before, data);
    var come := Concat(before) + data;
    assert "" + Concat(before) == Concat(before);
    assert m[..|come|] == come && m[..|Concat(before)|] == Concat(before);
    HeaderWaits(kind, EMPTY, before, m);
    OpenPrefix(kind, m, |come|);
    assert m[Find(m, BLANK).value + 4..|come|] == come[Find(m, BLANK).value + 4..];
    assert [] + [Parse(kind, come)] == [Parse(kind, come)];
  }

  /** So the whole of it is handed on if and only if the input that completes the
      header carries all that is left. */
  lemma OpenWholeIff(kind: Kind, m: string, before: seq<string>, data: string)
    requires Parse(kind, m).Done? && Open(Parse(kind, m).fields) && Find(m, BLANK).Some?
    requires Concat(before + [data]) <= m
    requires |Concat(before)| < Find(m, BLANK).value + 4 <= |Concat(before + [data])|
    ensures FeedAll(kind, EMPTY, before + [data]).messages == [Parse(kind, m)] <==> Concat(before + [data]) == m
  {
    hide Parse, Find, Open, FeedAll;
    OpenHandedOn(kind, m, before, data);
    BodyIs(kind, m);
    var r, h := Parse(kind, m), Find(m, BLANK).value;
    assert Open(r.fields) ==> r == Done(r.params, r.fields, m[h + 4..], m);
  }

  // ----------------------------------------------------- messages made by hand

  /** A message of such a kind, as somebody else may write it. */
  function Written(p: Params, reason: string, fs: seq<Field>, rest: string): string {
    FirstLine(p, reason) + CRLF + Lines(fs) + CRLF + rest
  }

  /** parse reads the header back, and the rest according to it. */
  lemma WrittenParses(kind: Kind, p: Params, reason: string, fs: seq<Field>, rest: string)
    requires ParamsOk(kind, p, reason) && FieldsOk(fs) && fs != []
    ensures var m := Written(p, reason, fs, rest);
            match ParseBody(fs, rest)
            case None => Parse(kind, m) == Incomplete
            case Some(body) => Parse(kind, m) == Done(p, fs, body, m[..|m| - |rest|] + body)
  {
    hide FirstLine, ParseParameter, Find, Plain, ParamsOk, FieldOk, Unique, Lines, ParseFields, ParseBody;
    var a, x := FirstLine(p, reason), Lines(fs);
    var m := a + CRLF + x + CRLF + rest;
    FirstLineBack(kind, p, reason);
    LinesLong(fs);
    Slices(a, x, rest);
    FindLineEnd(a, x + CRLF + rest);
    assert m == a + CRLF + (x + CRLF + rest);
    FindBlank(a, fs, rest);
    assert [] + fs == fs;
    LinesBack(fs, []);
    if ParseBody(fs, rest).Some? {
      BodyIsPrefix(fs, rest);
      var body := ParseBody(fs, rest).value;
      assert m[..|a| + |x| + 4 + |body|] == m[..|m| - |rest|] + body;
    }
  }

  lemma OneField(name: string, value: string)
    requires name != "" && value != "" && Plain(name) && Plain(value) && Lacks(name, ':')
    ensures FieldsOk([Field(name, value)])
  {
    forall i: int
      ensures !Stands(name, ": ", i)
    {
      NotHere(name, ": ", i, 0);
    }
  }

  lemma OtherName(name: string, value: string, other: string)
    requires |name| != |other|
    ensures !HasName([Field(name, value)], other)
  {
    assert |Fold(name)| != |Fold(other)|;
  }

  lemma OneOpen(name: string, value: string)
    requires |name| != 14 && |name| != 17
    ensures Open([Field(name, value)])
  {
    OtherName(name, value, LENGTH);
    OtherName(name, value, "transfer-encoding");
    if v :| Has([Field(name, value)], "transfer-encoding", v) {
      assert HasName([Field(name, value)], "transfer-encoding");
    }
  }

  // ---------------------------------------------------------------------- examples

  const POST := "POST / HTTP/1.1\r\nHost: a\r\n\r\nhello"

  lemma PostParts()
    ensures ParamsOk(Requests, Request("POST", "/", ""), "") && FirstLine(Request("POST", "/", ""), "") == "POST / HTTP/1.1"
    ensures Lines([Field("Host", "a")]) == "Host: a\r\n"
  {
    assert Request("POST", "/", "").Request?;
    assert [Field("Host", "a")][1..] == [];
  }

  /** A request without a content-length, as a client may send it. */
  lemma OpenExample()
    ensures Parse(Requests, POST) == Done(Request("POST", "/", ""), [Field("Host", "a")], "hello", POST)
  {
    hide Parse, Find, Open, ParseBody, FieldsOk, HasName, Chunked, ParamsOk, FirstLine, Lines;
    var p, fs := Request("POST", "/", ""), [Field("Host", "a")];
    OneField("Host", "a");
    OneOpen("Host", "a");
    OpenBody(fs, "hello");
    PostParts();
    assert Written(p, "", fs, "hello") == POST;
    WrittenParses(Requests, p, "", fs, "hello");
    assert POST[..|POST| - 5] + "hello" == POST;
  }

  const CHUNKS := "1\r\na\r\n0\r\n\r\n"
  const CODING := Field("Transfer-Encoding", "CHUNKED")
  const REPLY := "HTTP/1.1 200 OK\r\n" + "Transfer-Encoding: CHUNKED\r\n" + "\r\n"

  lemma ReplyParts()
    ensures ParamsOk(Responses, Response(200), "OK") && FirstLine(Response(200), "OK") == "HTTP/1.1 200 OK"
    ensures Lines([CODING]) == "Transfer-Encoding: CHUNKED\r\n"
  {
    assert Response(200).Response?;
    assert Decimal(2) == "2" && Decimal(20) == "20" && Decimal(200) == "200";
    assert [CODING][1..] == [];
  }

  lemma CodingIsChunked()
    ensures !HasName([CODING], LENGTH) && Chunked([CODING])
  {
    var fs := [CODING];
    OtherName("Transfer-Encoding", "CHUNKED", LENGTH);
    assert Fold("Transfer-Encoding") == Fold("transfer-encoding");
    assert Fold("CHUNKED") == Fold("chunked");
    assert Matches(fs[0], "transfer-encoding") && fs[0].value == "CHUNKED";
    assert Has(fs, "transfer-encoding", "CHUNKED");
  }

  lemma ChunksEnd()
    ensures ParseBody([CODING], CHUNKS) == Some(CHUNKS)
  {
    hide RFind, HasName, Chunked, Stands, ChunkedBody;
    CodingIsChunked();
    ChunkedBodyIs(CHUNKS);
    assert CHUNKS[..11] == CHUNKS;
    assert |CHUNKS| == 11 && CHUNKS[4..11] == LAST_CHUNK;
    StandsAt(CHUNKS, 4);
    assert LastChunkAt(CHUNKS, 4);
    forall i: int
      ensures LastChunkAt(CHUNKS, i) ==> i <= 4
    {
      NotNegative(CHUNKS, i);
      if Stands(CHUNKS, LAST_CHUNK, i) { StandsThere(CHUNKS, i); }
    }
  }

  lemma StandsAt(s: string, i: nat)
    requires i + 7 <= |s| && s[i..i + 7] == LAST_CHUNK
    ensures Stands(s, LAST_CHUNK, i)
  {
  }

  lemma ReplyText(a: string, x: string)
    requires a == "HTTP/1.1 200 OK" && x == "Transfer-Encoding: CHUNKED\r\n"
    ensures a + CRLF + x + CRLF == REPLY
  {
  }

  lemma CutBack(a: string, b: string)
    ensures (a + b)[..|a + b| - |b|] + b == a + b
  {
  }

  /** A chunked response, its coding named in capitals: the chunks stay in the body. */
  lemma ChunkedExample()
    ensures Parse(Responses, REPLY + CHUNKS) == Done(Response(200), [CODING], CHUNKS, REPLY + CHUNKS)
  {
    hide Parse, Find, ParseBody, FieldsOk, HasName, Chunked, ParamsOk, FirstLine, Lines;
    var p, fs := Response(200), [CODING];
    OneField("Transfer-Encoding", "CHUNKED");
    ChunksEnd();
    ReplyParts();
    ReplyText(FirstLine(p, "OK"), Lines(fs));
    assert Written(p, "OK", fs, CHUNKS) == REPLY + CHUNKS;
    WrittenParses(Responses, p, "OK", fs, CHUNKS);
    CutBack(REPLY, CHUNKS);
  }

  lemma ShortText(p: Params, reason: string, fs: seq<Field>, body: string, first: string, text: string)
    requires first == FirstLine(p, reason) && text == Text(WithLength(fs, |body|)) && ValueSize(WithLength(fs, |body|)) > 0
    ensures Packet(p, reason, fs, body) == first + CRLF + (text + CRLF + CRLF + body)
  {
    hide FirstLine, Text, WithLength, ValueSize;
  }

  lemma LengthText(n: nat)
    requires n < 10
    ensures Line(Field(LENGTH, Decimal(n))) == "content-length: " + [Digit(n)]
    ensures Text([Field(LENGTH, Decimal(n))]) == "content-length: " + [Digit(n)]
    ensures ValueSize([Field(LENGTH, Decimal(n))]) > 0
  {
    var fs := [Field(LENGTH, Decimal(n))];
    assert fs[..0] == [];
  }

  /** What packet(true) makes of a response. */
  lemma PrintedResponse()
    ensures Packet(Response(200), "OK", [], "hi") == "HTTP/1.1 200 OK\r\n" + "content-length: 2\r\n\r\nhi"
  {
    hide FirstLine, Packet, Line, Text, ValueSize;
    ReplyParts();
    LengthText(2);
    assert WithLength([], 2) == [Field(LENGTH, Decimal(2))];
    ShortText(Response(200), "OK", [], "hi", "HTTP/1.1 200 OK", "content-length: 2");
  }
}
