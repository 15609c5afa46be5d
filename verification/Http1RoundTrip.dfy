/** Parsing a printed HTTP message gives the message back. */
module Http1RoundTrip {
  import opened Bytes
  import opened HttpText
  import opened HttpHeaders
  import opened Http1
  import opened Http1Laws
  import opened Http1Stream
  import Timers

  // ------------------------------------------------------------ well-formed parts

  predicate Lacks(s: string, c: char) {
    forall i :: 0 <= i < |s| ==> s[i] != c
  }

  predicate Plain(s: string) {
    Lacks(s, '\r') && Lacks(s, '\n')
  }

  predicate FieldOk(f: Field) {
    f.name != "" && f.value != "" && Plain(f.name) && Plain(f.value) && Find(f.name, ": ").None?
  }

  predicate FieldsOk(fs: seq<Field>) {
    Unique(fs) && forall i :: 0 <= i < |fs| ==> FieldOk(fs[i])
  }

  predicate ParamsOk(kind: Kind, p: Params, reason: string) {
    && |FirstLine(p, reason)| <= 256
    && (if kind.Requests? then
          && p.Request?
          && Plain(p.verb) && Lacks(p.verb, ' ')
          && Plain(p.path) && Lacks(p.path, ' ') && Lacks(p.path, '?')
          && Plain(p.pathArg) && Lacks(p.pathArg, ' ')
        else
          p.Response? && 0 <= p.status < 0x8000_0000 && Plain(reason))
  }

  // ------------------------------------------------------------------ first lines

  /** A pattern does not stand where one of its characters is wrong. */
  lemma NotHere(s: string, pat: string, i: int, k: nat)
    requires k < |pat|
    requires 0 <= i && i + k < |s| ==> s[i + k] != pat[k]
    ensures !Stands(s, pat, i)
  {
    assert 0 <= i && i + |pat| <= |s| ==> s[i..i + |pat|][k] == s[i + k];
  }

  lemma FindOne(a: string, c: char, b: string)
    requires Lacks(a, c)
    ensures Find(a + [c] + b, [c]) == Some(|a|)
  {
    var s := a + [c] + b;
    assert s[|a|..|a| + 1] == [c];
    forall j | 0 <= j < |a|
      ensures !Stands(s, [c], j)
    {
      NotHere(s, [c], j, 0);
    }
    FindIs(s, [c], |a|);
  }

  lemma FindNone(a: string, c: char)
    requires Lacks(a, c)
    ensures Find(a, [c]).None?
  {
    forall j: int
      ensures !Stands(a, [c], j)
    {
      NotHere(a, [c], j, 0);
    }
  }

  /** Two blanks cut a line in three. */
  lemma TwoBlanks(a: string, b: string, c: string)
    requires Lacks(a, ' ') && Lacks(b, ' ')
    ensures var s := a + " " + b + " " + c;
            && Find(s, " ") == Some(|a|)
            && FindFrom(s, " ", |a| + 1) == Some(|a| + 1 + |b|)
            && s[..|a|] == a && s[|a| + 1..|a| + 1 + |b|] == b && s[|a| + 1 + |b| + 1..] == c
  {
    var s := a + " " + b + " " + c;
    assert [' '] == " ";
    FindOne(a, ' ', b + " " + c);
    FindOne(b, ' ', c);
    hide Find;
    assert s == a + [' '] + (b + " " + c);
    assert s[|a| + 1..] == b + [' '] + c;
    ThreeParts(a + " ", b, " ", c);
  }

  lemma ThreeParts(a: string, b: string, x: string, c: string)
    ensures var s := a + b + x + c;
            s[|a|..|a| + |b|] == b && s[|a| + |b| + |x|..] == c
  {
  }

  lemma RequestLineBack(p: Params, reason: string)
    requires ParamsOk(Requests, p, reason)
    ensures ParseRequestLine(FirstLine(p, reason)) == Some(p)
  {
    hide Find, FindFrom;
    var path := PathOf(p);
    assert Lacks(path, ' ');
    TwoBlanks(p.verb, path, VERSION);
    if p.pathArg == "" {
      FindNone(path, '?');
    } else {
      FindOne(p.path, '?', p.pathArg);
      assert ['?'] == "?" && path == p.path + ['?'] + p.pathArg;
      assert path[..|p.path|] == p.path && path[|p.path| + 1..] == p.pathArg;
    }
  }

  lemma StatusLineBack(p: Params, reason: string)
    requires ParamsOk(Responses, p, reason)
    ensures ParseStatusLine(FirstLine(p, reason)) == Some(p)
  {
    hide Find, FindFrom, Decimal, StrToLL;
    var status := Decimal(p.status);
    DecimalPlain(p.status);
    ReadDecimal(p.status);
    TwoBlanks(VERSION, status, reason);
  }

  lemma DecimalPlain(n: nat)
    ensures Plain(Decimal(n)) && Lacks(Decimal(n), ' ') && AllDigits(Decimal(n)) && Decimal(n) != ""
  {
    var s := Decimal(n);
    forall i | 0 <= i < |s|
      ensures IsDigit(s[i])
    {
      assert s[i] in s;
    }
  }

  lemma SignedPlain(n: int)
    ensures Plain(Signed(n)) && Lacks(Signed(n), ' ') && (AllDigits(Signed(n)) <==> n >= 0)
  {
    hide Decimal;
    DecimalPlain(if n < 0 then -n else n);
    if n < 0 { assert Signed(n)[0] == '-'; }
  }

  lemma PlainParts(a: string, b: string, c: string)
    requires Plain(a) && Plain(b) && Plain(c)
    ensures Plain(a + " " + b + " " + c)
  {
    PlainJoin(a, " ");
    PlainJoin(a + " ", b);
    PlainJoin(a + " " + b, " ");
    PlainJoin(a + " " + b + " ", c);
  }

  lemma FirstLinePlain(kind: Kind, p: Params, reason: string)
    requires ParamsOk(kind, p, reason)
    ensures Plain(FirstLine(p, reason))
  {
    hide Signed;
    if kind.Requests? {
      PlainPath(p);
      PlainParts(p.verb, PathOf(p), VERSION);
    } else {
      SignedPlain(p.status);
      PlainParts(VERSION, Signed(p.status), reason);
    }
  }

  lemma PlainPath(p: Params)
    requires p.Request? && Plain(p.path) && Plain(p.pathArg)
    ensures Plain(PathOf(p))
  {
    PlainJoin(p.path, "?");
    PlainJoin(p.path + "?", p.pathArg);
  }

  lemma FirstLineBack(kind: Kind, p: Params, reason: string)
    requires ParamsOk(kind, p, reason)
    ensures ParseParameter(kind, FirstLine(p, reason)) == Some(p)
    ensures Plain(FirstLine(p, reason))
  {
    hide ParseRequestLine, ParseStatusLine, FirstLine, Plain;
    FirstLinePlain(kind, p, reason);
    if kind.Requests? {
      RequestLineBack(p, reason);
    } else {
      StatusLineBack(p, reason);
    }
  }

  /** A status line is read back exactly when its status is not negative: the
      parser takes no sign. */
  lemma StatusLineIff(p: Params, reason: string)
    requires p.Response? && -0x8000_0000 <= p.status < 0x8000_0000 && Plain(reason) && |FirstLine(p, reason)| <= 256
    ensures ParseStatusLine(FirstLine(p, reason)) == Some(p) <==> p.status >= 0
    ensures p.status < 0 ==> ParseStatusLine(FirstLine(p, reason)).None?
  {
    if p.status >= 0 {
      StatusLineBack(p, reason);
    } else {
      NegativeRefused(p, reason);
    }
  }

  lemma NegativeRefused(p: Params, reason: string)
    requires p.Response? && p.status < 0
    ensures ParseStatusLine(FirstLine(p, reason)).None?
  {
    hide Find, FindFrom, Signed, StrToLL, Timers.AsInt32;
    SignedPlain(p.status);
    TwoBlanks(VERSION, Signed(p.status), reason);
  }

  /** So a response printed with a negative status is malformed. */
  lemma NegativeIsError(p: Params, reason: string, fs: seq<Field>, body: string)
    requires p.Response? && p.status < 0 && Plain(reason)
    ensures Parse(Responses, Packet(p, reason, fs, body)) == Error
  {
    hide Find, ParseStatusLine, Text, WithLength, Signed, ParseAt;
    var a, m := FirstLine(p, reason), Packet(p, reason, fs, body);
    NegativeRefused(p, reason);
    SignedPlain(p.status);
    PlainParts(VERSION, Signed(p.status), reason);
    var all := WithLength(fs, |body|);
    var tail := Text(all) + CRLF + (if ValueSize(all) > 0 then CRLF else "") + body;
    assert m == a + CRLF + tail;
    FindLineEnd(a, tail);
    assert m[..|a|] == a;
  }

  // ----------------------------------------------------------------- header lines

  /** Every field on a line of its own. */
  function Lines(fs: seq<Field>): string {
    if fs == [] then "" else Line(fs[0]) + CRLF + Lines(fs[1..])
  }

  lemma {:induction false} LinesSnoc(fs: seq<Field>, f: Field)
    ensures Lines(fs + [f]) == Lines(fs) + Line(f) + CRLF
  {
    if fs == [] {
      assert (fs + [f])[1..] == [];
    } else {
      LinesSnoc(fs[1..], f);
      assert (fs + [f])[1..] == fs[1..] + [f];
    }
  }

  /** to_string leaves out only the last line's end. */
  lemma {:induction false} TextIsLines(fs: seq<Field>)
    requires fs != [] && forall i :: 0 <= i < |fs| ==> FieldOk(fs[i])
    ensures Text(fs) + CRLF == Lines(fs) && Text(fs) != ""
  {
    hide FieldOk, Line;
    var front, f := fs[..|fs| - 1], fs[|fs| - 1];
    assert fs == front + [f];
    LinesSnoc(front, f);
    LineNotEmpty(f);
    if front != [] {
      TextIsLines(front);
    }
  }

  lemma LineNotEmpty(f: Field)
    requires FieldOk(f)
    ensures !Empty(f) && Line(f) != "" && Plain(Line(f)) && Find(Line(f), ": ") == Some(|f.name|)
  {
    var s, n := Line(f), |f.name|;
    hide Find;
    PlainLine(f);
    assert s[n..n + 2] == ": ";
    forall j | 0 <= j < n
      ensures !Stands(s, ": ", j)
    {
      if j + 2 <= n {
        PrefixStands(s, ": ", n, j);
        assert s[..n] == f.name;
        assert !Stands(f.name, ": ", j);
      } else {
        assert s[n] == ':';
        NotHere(s, ": ", j, 1);
      }
    }
    FindIs(s, ": ", n);
  }

  lemma PlainLine(f: Field)
    requires FieldOk(f)
    ensures Plain(Line(f))
  {
    hide Find;
    PlainJoin(f.name + ": ", f.value);
    PlainJoin(f.name, ": ");
  }

  lemma PlainJoin(a: string, b: string)
    requires Plain(b)
    ensures Plain(a) ==> Plain(a + b)
  {
  }

  /** A line end after plain text. */
  lemma FindLineEnd(a: string, b: string)
    requires Plain(a)
    ensures Find(a + CRLF + b, CRLF) == Some(|a|)
  {
    var s := a + CRLF + b;
    assert s[|a|..|a| + 2] == CRLF;
    forall j | 0 <= j < |a|
      ensures !Stands(s, CRLF, j)
    {
      NotHere(s, CRLF, j, 0);
    }
    FindIs(s, CRLF, |a|);
  }

  lemma {:induction false} LinesBack(fs: seq<Field>, acc: seq<Field>)
    requires FieldsOk(acc + fs)
    ensures ParseFields(Lines(fs), acc) == Some(acc + fs)
    decreases |fs|
  {
    hide Find, FieldOk, Line, Unique;
    if fs == [] {
      assert acc + fs == acc;
    } else {
      var f, line := fs[0], Line(fs[0]);
      assert (acc + fs)[|acc|] == f;
      LineNotEmpty(f);
      FindLineEnd(line, Lines(fs[1..]));
      assert Lines(fs)[..|line|] == line && Lines(fs)[|line| + 2..] == Lines(fs[1..]);
      LineParts(f);
      AddedFresh(acc, fs);
      assert acc + fs == (acc + [f]) + fs[1..];
      LinesBack(fs[1..], acc + [f]);
    }
  }

  lemma LineParts(f: Field)
    ensures Line(f)[..|f.name|] == f.name && Line(f)[|f.name| + 2..] == f.value
  {
  }

  lemma AddedFresh(acc: seq<Field>, fs: seq<Field>)
    requires FieldsOk(acc + fs) && fs != []
    ensures Added(acc, fs[0].name, fs[0].value) == acc + [fs[0]]
  {
    var all := acc + fs;
    assert all[|acc|] == fs[0] && FieldOk(all[|acc|]);
    forall i | 0 <= i < |acc|
      ensures !(Matches(acc[i], fs[0].name) && acc[i].value == fs[0].value)
    {
      assert all[i] == acc[i];
    }
  }

  // --------------------------------------------------------------- the blank line

  lemma NoBlankIn(a: string, b: string)
    requires Plain(a)
    ensures forall j :: 0 <= j < |a| ==> !Stands(a + CRLF + b, BLANK, j)
  {
    hide Stands;
    forall j | 0 <= j < |a|
      ensures !Stands(a + CRLF + b, BLANK, j)
    {
      NotHere(a + CRLF + b, BLANK, j, 0);
    }
  }

  /** The blank line comes right after plain text, or lies in what follows. */
  lemma BlankStep(a: string, b: string)
    requires Plain(a)
    ensures Stands(b, CRLF, 0) ==> Find(a + CRLF + b, BLANK) == Some(|a|)
    ensures !Stands(b, CRLF, 0) && Find(b, BLANK).Some? ==> Find(a + CRLF + b, BLANK) == Some(|a| + 2 + Find(b, BLANK).value)
  {
    hide Find;
    var s := a + CRLF + b;
    NoBlankIn(a, b);
    if Stands(b, CRLF, 0) {
      assert s[|a|..|a| + 4] == BLANK;
      FindIs(s, BLANK, |a|);
    } else if Find(b, BLANK).Some? {
      BlankBeyond(a, b);
    }
  }

  lemma {:induction false} BlankBeyond(a: string, b: string)
    requires !Stands(b, CRLF, 0) && Find(b, BLANK).Some?
    requires forall j :: 0 <= j < |a| ==> !Stands(a + CRLF + b, BLANK, j)
    ensures Find(a + CRLF + b, BLANK) == Some(|a| + 2 + Find(b, BLANK).value)
  {
    hide Find;
    var s, i := a + CRLF + b, Find(b, BLANK).value;
    ShiftStands(a + CRLF, b, BLANK, i);
    forall j | 0 <= j < |a| + 2 + i
      ensures !Stands(s, BLANK, j)
    {
      if j == |a| {
        BlankNotAt(a, b);
      } else if j == |a| + 1 {
        NotHere(s, BLANK, j, 0);
      } else if j > |a| + 1 {
        ShiftStands(a + CRLF, b, BLANK, j - |a| - 2);
        assert !Stands(b, BLANK, j - |a| - 2);
      }
    }
    FindIs(s, BLANK, |a| + 2 + i);
  }

  lemma BlankNotAt(a: string, b: string)
    requires !Stands(b, CRLF, 0)
    ensures !Stands(a + CRLF + b, BLANK, |a|)
  {
    var s, n := a + CRLF + b, |a|;
    if |b| < 2 {
    } else if b[0] != '\r' {
      NotHere(s, BLANK, n, 2);
    } else {
      assert b[1] != '\n' by { assert b[0..2] == [b[0], b[1]]; }
      NotHere(s, BLANK, n, 3);
    }
  }

  lemma ShiftStands(a: string, b: string, pat: string, i: nat)
    ensures Stands(a + b, pat, |a| + i) <==> Stands(b, pat, i)
  {
    if i + |pat| <= |b| {
      assert (a + b)[|a| + i..|a| + i + |pat|] == b[i..i + |pat|];
    }
  }

  lemma NoCrlfFirst(a: string, b: string)
    requires Plain(a) && a != ""
    ensures !Stands(a + b, CRLF, 0)
  {
    NotHere(a + b, CRLF, 0, 0);
  }

  /** After a first line and header lines, the blank line is where it should be. */
  lemma {:induction false} FindBlank(a: string, fs: seq<Field>, tail: string)
    requires Plain(a) && fs != [] && forall i :: 0 <= i < |fs| ==> FieldOk(fs[i])
    ensures Find(a + CRLF + Lines(fs) + CRLF + tail, BLANK) == Some(|a| + |Lines(fs)|)
    decreases |fs|
  {
    hide Find, FieldOk, Line;
    var line, rest := Line(fs[0]), Lines(fs[1..]) + CRLF + tail;
    LineNotEmpty(fs[0]);
    var b := line + CRLF + rest;
    assert a + CRLF + Lines(fs) + CRLF + tail == a + CRLF + b;
    NoCrlfFirst(line, CRLF + rest);
    assert b == line + (CRLF + rest);
    if |fs| == 1 {
      assert rest == CRLF + tail;
      assert rest[0..2] == CRLF;
      BlankStep(line, rest);
    } else {
      FindBlank(line, fs[1..], tail);
      assert line + CRLF + Lines(fs[1..]) + CRLF + tail == b;
    }
    BlankStep(a, b);
  }

  // ------------------------------------------------------------ the content-length

  lemma LengthFieldOk(n: nat)
    ensures FieldOk(Field(LENGTH, Decimal(n)))
  {
    DecimalPlain(n);
    hide Decimal;
    forall i: int
      ensures !Stands(LENGTH, ": ", i)
    {
      NotHere(LENGTH, ": ", i, 0);
    }
  }

  /** With no content-length before, packet(true) appends one. */
  lemma LengthAppended(fs: seq<Field>, n: nat)
    requires FieldsOk(fs) && !HasName(fs, LENGTH)
    ensures WithLength(fs, n) == fs + [Field(LENGTH, Decimal(n))]
    ensures FieldsOk(WithLength(fs, n)) && HasName(WithLength(fs, n), LENGTH)
    ensures Values(WithLength(fs, n), LENGTH) == {Decimal(n)}
  {
    hide FieldOk, Decimal;
    var f := Field(LENGTH, Decimal(n));
    var all := fs + [f];
    CountIffHas(fs, LENGTH);
    assert !Has(fs, LENGTH, Decimal(n));
    WithoutAbsent(fs, LENGTH, Decimal(n));
    LengthFieldOk(n);
    assert all[|fs|] == f && Matches(f, LENGTH);
    ValuesEmpty(fs, LENGTH);
    assert all[..|fs|] == fs;
    LengthUnique(fs, f);
  }

  lemma LengthUnique(fs: seq<Field>, f: Field)
    requires Unique(fs) && !HasName(fs, f.name)
    ensures Unique(fs + [f])
  {
    forall i | 0 <= i < |fs|
      ensures Fold(fs[i].name) != Fold(f.name)
    {
      assert !Matches(fs[i], f.name);
    }
  }

  /** The content-length packet(true) prints: the one the header has, whatever the
      body is by now, or else the body's. */
  ghost function PrintedLength(fs: seq<Field>, n: nat): nat {
    if HasName(fs, LENGTH) then ContentLength(fs) else n
  }

  /** Either way the header then has a content-length. */
  lemma {:induction false} LengthIs(fs: seq<Field>, n: nat)
    requires FieldsOk(fs) && n <= LLONG_MAX
    ensures var all := WithLength(fs, n);
            FieldsOk(all) && HasName(all, LENGTH) && ContentLength(all) == PrintedLength(fs, n)
  {
    hide FieldsOk, HasName, ContentLength, CountName;
    CountIffHas(fs, LENGTH);
    if !HasName(fs, LENGTH) {
      LengthAppended(fs, n);
      OnlyLength(WithLength(fs, n), n);
    }
  }

  lemma OnlyLength(fs: seq<Field>, n: nat)
    requires n <= LLONG_MAX && HasName(fs, LENGTH) && Values(fs, LENGTH) == {Decimal(n)}
    ensures ContentLength(fs) == n
  {
    ReadDecimal(n);
    hide Decimal, StrToLL, HasName, Values, FirstValue;
    assert IsGot(fs, LENGTH, FirstValue(fs, LENGTH));
  }

  lemma SizePositive(fs: seq<Field>)
    requires fs != [] && forall i :: 0 <= i < |fs| ==> FieldOk(fs[i])
    ensures ValueSize(fs) > 0
  {
  }

  // ------------------------------------------------------------------ round trip

  /** A printed message, part by part. */
  lemma PacketParts(p: Params, reason: string, fs: seq<Field>, body: string)
    requires FieldsOk(fs) && |body| <= LLONG_MAX
    ensures var all := WithLength(fs, |body|);
            all != [] && Packet(p, reason, fs, body) == FirstLine(p, reason) + CRLF + Lines(all) + CRLF + body
  {
    LengthIs(fs, |body|);
    hide WithLength, ContentLength, Unique;
    var all := WithLength(fs, |body|);
    assert all != [];
    TextIsLines(all);
    SizePositive(all);
    hide Text, Lines, FieldOk, ValueSize, FirstLine;
    Reassociated(FirstLine(p, reason), Text(all), body);
  }

  lemma Reassociated(a: string, t: string, b: string)
    ensures a + CRLF + t + CRLF + CRLF + b == a + CRLF + (t + CRLF) + CRLF + b
  {
  }

  lemma Slices(a: string, x: string, b: string)
    requires |x| >= 2
    ensures var s := a + CRLF + x + CRLF + b;
            && s[..|a|] == a && s[|a| + 2..|a| + |x| + 2] == x && s[|a| + |x| + 4..] == b && |s| == |a| + |x| + 4 + |b|
  {
  }

  /** What parse makes of a printed message and the bytes behind it: it takes for
      the body as many bytes as the printed content-length says, no matter how many
      the body had; with fewer, the message is incomplete. */
  lemma PrintedParses(kind: Kind, p: Params, reason: string, fs: seq<Field>, body: string, rest: string)
    requires ParamsOk(kind, p, reason) && FieldsOk(fs) && |body| <= LLONG_MAX
    ensures var m, n := Packet(p, reason, fs, body), PrintedLength(fs, |body|);
            |m| >= |body| &&
            Parse(kind, m + rest) ==
            if |body + rest| < n then Incomplete
            else Done(p, WithLength(fs, |body|), (body + rest)[..n], (m + rest)[..|m| - |body| + n])
  {
    hide Packet, WithLength, FirstLine, ParseParameter, ContentLength, Find, Plain, HasName, ParamsOk, FieldOk, Unique, Lines, ParseFields, ParseBody, PrintedLength;
    var all, a := WithLength(fs, |body|), FirstLine(p, reason);
    FirstLineBack(kind, p, reason);
    LengthIs(fs, |body|);
    PacketParts(p, reason, fs, body);
    LinesLong(all);
    var tail := body + rest;
    var m := a + CRLF + Lines(all) + CRLF + tail;
    assert m == Packet(p, reason, fs, body) + rest;
    Slices(a, Lines(all), tail);
    FindLineEnd(a, Lines(all) + CRLF + tail);
    assert m == a + CRLF + (Lines(all) + CRLF + tail);
    FindBlank(a, all, tail);
    assert [] + all == all;
    LinesBack(all, []);
    BodyByLength(all, tail);
  }

  lemma LinesLong(fs: seq<Field>)
    requires fs != []
    ensures |Lines(fs)| >= 2
  {
  }

  /** parse reads back what packet(true) prints, with its fields in their order, the
      body and the packet itself as the raw message, if and only if a content-length
      the header already had is the body's. */
  lemma RoundTrip(kind: Kind, p: Params, reason: string, fs: seq<Field>, body: string)
    requires ParamsOk(kind, p, reason) && FieldsOk(fs) && |body| <= LLONG_MAX
    ensures var m := Packet(p, reason, fs, body);
            Framed(kind, m, Done(p, WithLength(fs, |body|), body, m)) <==> PrintedLength(fs, |body|) == |body|
  {
    hide Packet, WithLength, ContentLength, HasName, ParamsOk, FieldOk, Unique, PrintedLength, Parse;
    var m := Packet(p, reason, fs, body);
    LengthIs(fs, |body|);
    PrintedParses(kind, p, reason, fs, body, "");
    assert m + "" == m && body + "" == body;
    assert body[..|body|] == body && m[..|m|] == m;
  }

  /** A header that has been printed before keeps its content-length: printed again
      with another body it does not come back. */
  lemma PrintedAgain(kind: Kind, p: Params, reason: string, fs: seq<Field>, first: string, body: string)
    requires ParamsOk(kind, p, reason) && FieldsOk(fs) && !HasName(fs, LENGTH)
    requires |first| <= LLONG_MAX && |body| <= LLONG_MAX
    ensures var again := WithLength(fs, |first|);
            var m := Packet(p, reason, again, body);
            && (|body| < |first| ==> Parse(kind, m) == Incomplete)
            && (|body| >= |first| ==> Parse(kind, m) == Done(p, again, body[..|first|], m[..|m| - |body| + |first|]) && |m| >= |body|)
  {
    hide Packet, WithLength, ContentLength, HasName, ParamsOk, FieldOk, Unique, Parse;
    var again := WithLength(fs, |first|);
    LengthIs(fs, |first|);
    PrintedParses(kind, p, reason, again, body, "");
    StaysWith(again, |body|);
    var m := Packet(p, reason, again, body);
    assert m + "" == m && body + "" == body;
  }

  lemma StaysWith(fs: seq<Field>, n: nat)
    requires HasName(fs, LENGTH)
    ensures WithLength(fs, n) == fs
  {
    CountIffHas(fs, LENGTH);
  }

  /** So a printed message ends where it says it does, for every continuation, under
      the same condition and no other. */
  lemma PacketDelimited(kind: Kind, p: Params, reason: string, fs: seq<Field>, body: string, rest: string)
    requires ParamsOk(kind, p, reason) && FieldsOk(fs) && |body| <= LLONG_MAX
    ensures var m := Packet(p, reason, fs, body);
            Parse(kind, m + rest) == Done(p, WithLength(fs, |body|), body, m) <==> PrintedLength(fs, |body|) == |body|
    ensures var m := Packet(p, reason, fs, body);
            PrintedLength(fs, |body|) == |body| ==> forall k: nat :: k < |m| ==> Parse(kind, m[..k]) == Incomplete
  {
    hide Packet, WithLength, ContentLength, HasName, ParamsOk, FieldOk, Unique, PrintedLength, Parse;
    var m := Packet(p, reason, fs, body);
    PrintedParses(kind, p, reason, fs, body, rest);
    RoundTrip(kind, p, reason, fs, body);
    if PrintedLength(fs, |body|) == |body| {
      assert (body + rest)[..|body|] == body && (m + rest)[..|m|] == m;
      SelfDelimiting(kind, m, Done(p, WithLength(fs, |body|), body, m), rest);
    }
  }

  /** A message handed on has as many bytes of body as its content-length says. */
  lemma ParsedByLength(kind: Kind, m: string)
    requires Parse(kind, m).Done? && HasName(Parse(kind, m).fields, LENGTH)
    ensures |Parse(kind, m).body| == ContentLength(Parse(kind, m).fields)
  {
    hide ParseParameter, ParseFields, Find, HasName, ContentLength, Chunked;
  }

  lemma {:induction false} FedByLength(kind: Kind, s: Input, inputs: seq<string>, r: Outcome)
    requires r.Done? && HasName(r.fields, LENGTH) && r !in s.messages && r in FeedAll(kind, s, inputs).messages
    ensures |r.body| == ContentLength(r.fields)
    decreases |inputs|
  {
    hide Parse, HasName, ContentLength;
    if inputs != [] {
      var s1 := Feed(kind, s, inputs[0]);
      if r in s1.messages {
        ParsedByLength(kind, s.buffer + inputs[0]);
      } else {
        FedByLength(kind, s1, inputs[1..], r);
      }
    }
  }

  /** And received in any pieces it is handed on once, as it was made, under the
      same condition and no other. */
  lemma Delivered(kind: Kind, p: Params, reason: string, fs: seq<Field>, body: string, inputs: seq<string>)
    requires ParamsOk(kind, p, reason) && FieldsOk(fs) && |body| <= LLONG_MAX
    requires Concat(inputs) == Packet(p, reason, fs, body)
    ensures FeedAll(kind, EMPTY, inputs) == Input("", [Done(p, WithLength(fs, |body|), body, Concat(inputs))], 0)
            <==> PrintedLength(fs, |body|) == |body|
  {
    hide Packet, FeedAll, ParamsOk, FieldsOk, PrintedLength, WithLength, HasName, ContentLength;
    RoundTrip(kind, p, reason, fs, body);
    LengthIs(fs, |body|);
    var r := Done(p, WithLength(fs, |body|), body, Concat(inputs));
    if PrintedLength(fs, |body|) == |body| {
      ExactlyOneMessage(kind, inputs, r);
    } else if FeedAll(kind, EMPTY, inputs) == Input("", [r], 0) {
      FedByLength(kind, EMPTY, inputs, r);
      assert false;
    }
  }
}
