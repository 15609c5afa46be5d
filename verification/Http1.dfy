/** http1_protocol/Http1Protocol.h, Http1Request.h and Http1Response.h: printing
    and parsing messages. */
module Http1 {
  import opened Bytes
  import opened HttpText
  import opened HttpHeaders
  import Timers

  /** The two instances of the protocol template. */
  datatype Kind = Requests | Responses

  /** What the first line says. */
  datatype Params =
    | Request(verb: string, path: string, pathArg: string)
    | Response(status: int)

  datatype Outcome =
    | Incomplete
    | Error
    | Done(params: Params, fields: seq<Field>, body: string, raw: string)

  const VERSION := "HTTP/1.1"
  const LENGTH := "content-length"

  // ------------------------------------------------------------------- printing

  function PathOf(p: Params): string
    requires p.Request?
  {
    if p.pathArg == "" then p.path else p.path + "?" + p.pathArg
  }

  /** The first line; a response's reason is looked up in a table by its status. */
  function FirstLine(p: Params, reason: string): string {
    if p.Request? then p.verb + " " + PathOf(p) + " " + VERSION
    else VERSION + " " + Signed(p.status) + " " + reason
  }

  /** A message without a content-length is given one. */
  function WithLength(fs: seq<Field>, n: nat): seq<Field> {
    if CountName(fs, LENGTH) == 0 then Replaced(fs, LENGTH, Decimal(n)) else fs
  }

  /** packet(true) */
  function Packet(p: Params, reason: string, fs: seq<Field>, body: string): string {
    var all := WithLength(fs, |body|);
    FirstLine(p, reason) + CRLF + Text(all) + CRLF + (if ValueSize(all) > 0 then CRLF else "") + body
  }

  // -------------------------------------------------------------------- parsing

  function ParseRequestLine(line: string): Option<Params> {
    if |line| > 256 then None
    else
      var m := Find(line, " ");
      if m.None? then None
      else
        var p := FindFrom(line, " ", m.value + 1);
        if p.None? then None
        else
          var version := line[p.value + 1..];
          if version != "HTTP/1.1" && version != "HTTP/1.0" then None
          else
            var path := line[m.value + 1..p.value];
            var q := Find(path, "?");
            if q.None? then Some(Request(line[..m.value], path, ""))
            else Some(Request(line[..m.value], path[..q.value], path[q.value + 1..]))
  }

  predicate AllDigits(s: string) {
    forall i :: 0 <= i < |s| ==> IsDigit(s[i])
  }

  function ParseStatusLine(line: string): Option<Params> {
    if |line| > 256 then None
    else
      var v := Find(line, " ");
      if v.None? then None
      else
        var e := FindFrom(line, " ", v.value + 1);
        if e.None? then None
        else if line[..v.value] != "HTTP/1.1" && line[..v.value] != "HTTP/1.0" then None
        else
          var status := line[v.value + 1..e.value];
          if AllDigits(status) then Some(Response(Timers.AsInt32(StrToLL(status)))) else None
  }

  function ParseParameter(kind: Kind, line: string): Option<Params> {
    if kind.Requests? then ParseRequestLine(line) else ParseStatusLine(line)
  }

  /** parse_header from some line on. */
  function ParseFields(lines: string, fs: seq<Field>): Option<seq<Field>>
    decreases |lines|
  {
    var e := Find(lines, CRLF);
    if e.None? then Some(fs)
    else
      var line := lines[..e.value];
      var k := Find(line, ": ");
      if k.None? then None
      else ParseFields(lines[e.value + 2..], Added(fs, line[..k.value], line[k.value + 2..]))
  }

  ghost function FirstValue(fs: seq<Field>, name: string): (v: string)
    ensures IsGot(fs, name, v)
  {
    if HasName(fs, name) then
      GotExists(fs, name);
      var v :| IsFirst(v, Values(fs, name));
      v
    else ""
  }

  lemma GotExists(fs: seq<Field>, name: string)
    requires HasName(fs, name)
    ensures exists v :: IsFirst(v, Values(fs, name))
  {
    var i :| 0 <= i < |fs| && Matches(fs[i], name);
    ValuesIff(fs, name, fs[i].value);
    assert fs[i].value in Values(fs, name);
    FirstExists(Values(fs, name));
  }

  lemma GotIsFirst(fs: seq<Field>, name: string, v: string)
    requires IsGot(fs, name, v)
    ensures v == FirstValue(fs, name)
  {
    hide Values, HasName, Has;
    if HasName(fs, name) { FirstUnique(Values(fs, name), v, FirstValue(fs, name)); }
  }

  /** get<size_t>("content-length") */
  ghost function ContentLength(fs: seq<Field>): nat {
    StrToLL(FirstValue(fs, LENGTH)) % TWO64
  }

  ghost predicate Chunked(fs: seq<Field>) {
    exists v :: Has(fs, "transfer-encoding", v) && Fold(v) == Fold("chunked")
  }

  const LAST_CHUNK := "\r\n0\r\n\r\n"

  /** std::string::rfind: the last place where the pattern stands. */
  function RFind(s: string, pat: string): (r: Option<nat>)
    ensures r.Some? ==> Stands(s, pat, r.value)
  {
    if |s| < |pat| then None
    else if Stands(s, pat, |s| - |pat|) then Some(|s| - |pat|)
    else if s == [] then None
    else
      var r := RFind(s[..|s| - 1], pat);
      assert r.Some? ==> s[..|s| - 1][r.value..r.value + |pat|] == s[r.value..r.value + |pat|];
      r
  }

  /** A chunked body is searched for its terminator in its last 1000 bytes. */
  function ChunkedBody(rest: string): Option<string> {
    var from := if |rest| < 1000 then 0 else |rest| - 1000;
    var e := RFind(rest[from..], LAST_CHUNK);
    if e.None? then None else Some(rest[..e.value + from + 7])
  }

  ghost function ParseBody(fs: seq<Field>, rest: string): Option<string> {
    if HasName(fs, LENGTH) then
      if |rest| < ContentLength(fs) then None else Some(rest[..ContentLength(fs)])
    else if Chunked(fs) then ChunkedBody(rest)
    else Some(rest)
  }

  /** parse, with both ends of the header found. */
  ghost function ParseAt(kind: Kind, m: string, e: nat, h: nat): Outcome
    requires e + 2 <= |m| && h + 4 <= |m|
  {
    var p := ParseParameter(kind, m[..e]);
    if p.None? then Error
    else if e < h && h - e < 2 then Incomplete
    else
      var fs := if e < h then ParseFields(m[e + 2..h + 2], []) else Some([]);
      if fs.None? then Error
      else
        var body := ParseBody(fs.value, m[h + 4..]);
        if body.None? then Incomplete
        else Done(p.value, fs.value, body.value, m[..h + 4 + |body.value|])
  }

  ghost function Parse(kind: Kind, m: string): Outcome {
    var e := Find(m, CRLF);
    if e.None? then Incomplete
    else if ParseParameter(kind, m[..e.value]).None? then Error
    else
      var h := Find(m, BLANK);
      if h.None? then Incomplete else ParseAt(kind, m, e.value, h.value)
  }
}
