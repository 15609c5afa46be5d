/** When a message is malformed, and what a connection does from then on. */
module Http1Errors {
  import opened Bytes
  import opened HttpText
  import opened HttpHeaders
  import opened Http1
  import opened Http1Laws
  import opened Http1RoundTrip
  import opened Http1Stream
  import Timers

  // ------------------------------------------------------------------ first lines

  predicate IsVersion(s: string) {
    s == "HTTP/1.1" || s == "HTTP/1.0"
  }

  /** A method, a path and a version with single blanks between. */
  predicate IsRequestLine(line: string, a: string, b: string, c: string) {
    line == a + " " + b + " " + c && Lacks(a, ' ') && Lacks(b, ' ') && IsVersion(c)
  }

  /** A version, digits and a reason with single blanks between. */
  predicate IsStatusLine(line: string, a: string, b: string, c: string) {
    line == a + " " + b + " " + c && IsVersion(a) && AllDigits(b)
  }

  ghost predicate Acceptable(kind: Kind, line: string) {
    && |line| <= 256
    && exists a, b, c :: if kind.Requests? then IsRequestLine(line, a, b, c) else IsStatusLine(line, a, b, c)
  }

  lemma {:induction false} BlankAt(s: string, i: nat)
    requires Find(s, " ") == Some(i)
    ensures i < |s| && s == s[..i] + " " + s[i + 1..] && Lacks(s[..i], ' ')
  {
    assert s[i..i + 1] == [s[i]];
    forall k | 0 <= k < i
      ensures s[k] != ' '
    {
      assert !Stands(s, " ", k);
      assert s[k..k + 1] == [s[k]];
    }
  }

  /** The parts around the first two blanks. */
  lemma {:induction false} BlanksCut(line: string, i: nat, j: nat)
    requires Find(line, " ") == Some(i) && FindFrom(line, " ", i + 1) == Some(j)
    ensures i < j < |line|
    ensures line == line[..i] + " " + line[i + 1..j] + " " + line[j + 1..]
    ensures Lacks(line[..i], ' ') && Lacks(line[i + 1..j], ' ')
  {
    BlankAt(line, i);
    var rest := line[i + 1..];
    BlankAt(rest, j - i - 1);
    hide Find, Lacks;
    assert rest[..j - i - 1] == line[i + 1..j] && rest[j - i..] == line[j + 1..];
    Threefold(line[..i], line[i + 1..j], line[j + 1..]);
  }

  lemma Threefold(a: string, b: string, c: string)
    ensures a + " " + (b + " " + c) == a + " " + b + " " + c
  {
  }

  lemma RequestAcceptedIff(line: string)
    ensures ParseRequestLine(line).Some? <==> Acceptable(Requests, line)
  {
    hide Find, Lacks;
    if ParseRequestLine(line).Some? {
      var i := Find(line, " ").value;
      var j := FindFrom(line, " ", i + 1).value;
      BlanksCut(line, i, j);
      assert IsRequestLine(line, line[..i], line[i + 1..j], line[j + 1..]);
    }
    if Acceptable(Requests, line) {
      var a, b, c :| IsRequestLine(line, a, b, c);
      TwoBlanks(a, b, c);
    }
  }

  lemma StatusAcceptedIff(line: string)
    ensures ParseStatusLine(line).Some? <==> Acceptable(Responses, line)
  {
    hide Find, Timers.AsInt32, StrToLL;
    if ParseStatusLine(line).Some? {
      var i := Find(line, " ").value;
      var j := FindFrom(line, " ", i + 1).value;
      BlanksCut(line, i, j);
      assert IsStatusLine(line, line[..i], line[i + 1..j], line[j + 1..]);
    }
    if Acceptable(Responses, line) {
      var a, b, c :| IsStatusLine(line, a, b, c);
      TwoBlanks(a, b, c);
    }
  }

  lemma AcceptedIff(kind: Kind, line: string)
    ensures ParseParameter(kind, line).Some? <==> Acceptable(kind, line)
  {
    hide ParseRequestLine, ParseStatusLine, Acceptable;
    if kind.Requests? {
      RequestAcceptedIff(line);
    } else {
      StatusAcceptedIff(line);
    }
  }

  // ----------------------------------------------------------------- header lines

  /** A line of the header, from i to its end at j. */
  predicate IsLine(lines: string, i: int, j: int): (r: bool)
    ensures r ==> 0 <= i <= j && j + 2 <= |lines|
  {
    && 0 <= i <= j
    && (i == 0 || Stands(lines, CRLF, i - 2))
    && Stands(lines, CRLF, j)
    && forall k :: i <= k < j ==> !Stands(lines, CRLF, k)
  }

  /** Some line has no ": " in it. */
  ghost predicate HasBadLine(lines: string) {
    exists i: nat, j: nat :: IsLine(lines, i, j) && Find(lines[i..j], ": ").None?
  }

  lemma FirstLineOf(lines: string, e: nat, j: nat)
    requires Find(lines, CRLF) == Some(e)
    ensures IsLine(lines, 0, j) <==> j == e
  {
  }

  lemma EndsShift(lines: string, rest: string, n: nat, k: int)
    requires n <= |lines| && rest == lines[n..] && k >= 0
    ensures Stands(rest, CRLF, k) <==> Stands(lines, CRLF, k + n)
  {
    assert lines[..n] + rest == lines;
    ShiftStands(lines[..n], rest, CRLF, k);
  }

  /** The lines behind the first are those of the rest. */
  lemma LineOfRest(lines: string, rest: string, e: nat, i: int, j: int)
    requires Find(lines, CRLF) == Some(e) && rest == lines[e + 2..] && IsLine(rest, i, j)
    ensures IsLine(lines, i + e + 2, j + e + 2) && rest[i..j] == lines[i + e + 2..j + e + 2]
  {
    hide Find;
    EndsShift(lines, rest, e + 2, j);
    if i >= 2 { EndsShift(lines, rest, e + 2, i - 2); }
    forall k | i + e + 2 <= k < j + e + 2
      ensures !Stands(lines, CRLF, k)
    {
      EndsShift(lines, rest, e + 2, k - e - 2);
    }
  }

  /** A line but the first begins behind the first line's end. */
  lemma NextLine(lines: string, e: nat, i: int)
    requires Find(lines, CRLF) == Some(e) && i > 0 && Stands(lines, CRLF, i - 2)
    ensures i >= e + 2 && i != e + 3
  {
    assert lines[e..e + 2][1] == lines[e + 1];
    NotHere(lines, CRLF, e + 1, 0);
  }

  lemma LineInRest(lines: string, rest: string, e: nat, i: int, j: int)
    requires Find(lines, CRLF) == Some(e) && rest == lines[e + 2..] && IsLine(lines, i, j) && i > 0
    ensures i >= e + 2 && IsLine(rest, i - e - 2, j - e - 2)
    ensures rest[i - e - 2..j - e - 2] == lines[i..j]
  {
    hide Find, Stands;
    NextLine(lines, e, i);
    EndsShift(lines, rest, e + 2, j - e - 2);
    if i >= e + 4 { EndsShift(lines, rest, e + 2, i - e - 4); }
    forall k | i - e - 2 <= k < j - e - 2
      ensures !Stands(rest, CRLF, k)
    {
      EndsShift(lines, rest, e + 2, k);
    }
  }

  lemma {:induction false} BadLineIff(lines: string, fs: seq<Field>)
    ensures ParseFields(lines, fs).None? <==> HasBadLine(lines)
    decreases |lines|
  {
    hide Find, Added;
    var r := Find(lines, CRLF);
    if r.Some? {
      var e := r.value;
      var line := lines[..e];
      FirstLineOf(lines, e, e);
      assert lines[0..e] == line;
      var k := Find(line, ": ");
      if k.Some? {
        BadLineIff(lines[e + 2..], Added(fs, line[..k.value], line[k.value + 2..]));
        BadLineBehind(lines, lines[e + 2..], e);
      }
    }
  }

  lemma BadLineBehind(lines: string, rest: string, e: nat)
    requires Find(lines, CRLF) == Some(e) && Find(lines[..e], ": ").Some? && rest == lines[e + 2..]
    ensures HasBadLine(lines) <==> HasBadLine(rest)
  {
    hide Find, IsLine;
    if i: nat, j: nat :| IsLine(lines, i, j) && Find(lines[i..j], ": ").None? {
      FirstLineOf(lines, e, j);
      assert lines[0..e] == lines[..e];
      LineInRest(lines, rest, e, i, j);
      assert IsLine(rest, i - e - 2, j - e - 2);
    }
    if i: nat, j: nat :| IsLine(rest, i, j) && Find(rest[i..j], ": ").None? {
      LineOfRest(lines, rest, e, i, j);
      assert IsLine(lines, i + e + 2, j + e + 2);
    }
  }

  // ------------------------------------------------------------ malformed messages

  /** The first line is complete and is none, or the header is complete and has a
      line without ": ". */
  ghost predicate Malformed(kind: Kind, m: string) {
    var e, h := Find(m, CRLF), Find(m, BLANK);
    && e.Some?
    && (!Acceptable(kind, m[..e.value])
        || (h.Some? && e.value + 2 <= h.value && HasBadLine(m[e.value + 2..h.value + 2])))
  }

  lemma ErrorIff(kind: Kind, m: string)
    ensures Parse(kind, m) == Error <==> Malformed(kind, m)
  {
    hide Find, ParseParameter, ParseFields, ParseBody, Acceptable, HasBadLine;
    var e, h := Find(m, CRLF), Find(m, BLANK);
    if e.Some? {
      AcceptedIff(kind, m[..e.value]);
      if h.Some? {
        BlankHasCrlf(m);
        NoOverlap(m, e.value, h.value);
        if e.value + 2 <= h.value {
          BadLineIff(m[e.value + 2..h.value + 2], []);
        }
      }
    }
  }

  lemma NoOverlap(m: string, e: nat, h: nat)
    requires Find(m, CRLF) == Some(e) && Find(m, BLANK) == Some(h)
    ensures h != e + 1
  {
    assert m[e..e + 2][1] == m[e + 1];
    assert m[h..h + 4][0] == m[h];
  }

  // ------------------------------------------------------------ the connections

  /** What a connection does that reports an error for every input to come. */
  ghost predicate OnlyErrors(kind: Kind, s: Input) {
    forall inputs: seq<string> ::
      FeedAll(kind, s, inputs).messages == s.messages && FeedAll(kind, s, inputs).errors == s.errors + |inputs|
  }

  /** A client reports an error for every input from now on, and never hands on a
      message again, exactly when what it has kept is malformed. */
  lemma ClientStuckIff(s: Input)
    ensures OnlyErrors(Responses, s) <==> Malformed(Responses, s.buffer)
  {
    hide Parse;
    ErrorIff(Responses, s.buffer);
    if Malformed(Responses, s.buffer) {
      forall inputs: seq<string>
        ensures FeedAll(Responses, s, inputs).messages == s.messages
        ensures FeedAll(Responses, s, inputs).errors == s.errors + |inputs|
      {
        ClientStuck(s, inputs);
      }
    } else {
      var s1 := FeedAll(Responses, s, [""]);
      OneInput(Responses, s, "");
      assert s.buffer + "" == s.buffer;
      assert s1.errors == s.errors;
    }
  }

  lemma OneInput(kind: Kind, s: Input, data: string)
    ensures FeedAll(kind, s, [data]) == Feed(kind, s, data)
  {
    assert [data][1..] == [];
  }

  /** A first line without a blank is all it takes. */
  lemma ClientStuckExample()
    ensures Malformed(Responses, "X\r\n")
    ensures OnlyErrors(Responses, Feed(Responses, EMPTY, "X\r\n"))
  {
    hide Parse;
    var m := "X\r\n";
    FindLineEnd("X", "");
    assert "X" + CRLF + "" == m && m[..1] == "X";
    forall a, b, c
      ensures !IsStatusLine("X", a, b, c)
    {
    }
    ErrorIff(Responses, m);
    assert "" + m == m;
    ClientStuckIff(Feed(Responses, EMPTY, m));
  }

  /** The server drops what it has at an error, so a fresh start follows. */
  lemma ServerRecovers(s: Input, data: string)
    requires Malformed(Requests, s.buffer + data)
    ensures Feed(Requests, s, data) == Input("", s.messages, s.errors + 1)
  {
    ErrorIff(Requests, s.buffer + data);
  }
}
