/** What the HTTP parser promises: a message with a content-length ends where it
    says, and parsing undoes printing. */
module Http1Laws {
  import opened Bytes
  import opened HttpText
  import opened HttpHeaders
  import opened Http1

  // ------------------------------------------------------- searching and prefixes

  lemma PrefixStands(s: string, pat: string, k: nat, i: int)
    requires k <= |s|
    ensures Stands(s[..k], pat, i) <==> Stands(s, pat, i) && i + |pat| <= k
  {
    if 0 <= i && i + |pat| <= k {
      assert s[..k][i..i + |pat|] == s[i..i + |pat|];
    }
  }

  /** In a prefix the first place is the same, or is not reached. */
  lemma FindInPrefix(s: string, pat: string, k: nat)
    requires pat != [] && k <= |s|
    ensures Find(s, pat).Some? ==>
              Find(s[..k], pat) == if Find(s, pat).value + |pat| <= k then Find(s, pat) else None
    ensures Find(s, pat).None? ==> Find(s[..k], pat).None?
  {
    forall i: int
      ensures Stands(s[..k], pat, i) <==> Stands(s, pat, i) && i + |pat| <= k
    {
      PrefixStands(s, pat, k, i);
    }
    var r, t := Find(s, pat), Find(s[..k], pat);
    if r.Some? && r.value + |pat| <= k {
      FindIs(s[..k], pat, r.value);
    }
  }

  lemma FindInMore(s: string, pat: string, more: string)
    requires pat != [] && Find(s, pat).Some?
    ensures Find(s + more, pat) == Find(s, pat)
  {
    FindInPrefix(s + more, pat, |s|);
    assert (s + more)[..|s|] == s;
    var i := Find(s, pat).value;
    PrefixStands(s + more, pat, |s|, i);
    forall j | 0 <= j < i
      ensures !Stands(s + more, pat, j)
    {
      PrefixStands(s + more, pat, |s|, j);
    }
    FindIs(s + more, pat, i);
  }

  lemma BlankHasCrlf(s: string)
    requires Find(s, BLANK).Some?
    ensures Find(s, CRLF).Some? && Find(s, CRLF).value <= Find(s, BLANK).value
  {
    var h := Find(s, BLANK).value;
    assert s[h..h + 2] == s[h..h + 4][..2] == CRLF;
    assert Stands(s, CRLF, h);
  }

  // ------------------------------------------------------------ self-delimitation

  /** A message parsed to the end, with a content-length. */
  ghost predicate Framed(kind: Kind, m: string, r: Outcome) {
    r.Done? && Parse(kind, m) == r && HasName(r.fields, LENGTH)
  }

  /** Where the parts of such a message lie. */
  ghost predicate Parts(kind: Kind, m: string, r: Outcome, e: nat, h: nat) {
    && r.Done? && e <= h && h + 4 + |r.body| <= |m|
    && Find(m, CRLF) == Some(e) && Find(m, BLANK) == Some(h)
    && ParseParameter(kind, m[..e]) == Some(r.params)
    && (if e < h then h - e >= 2 && ParseFields(m[e + 2..h + 2], []) == Some(r.fields) else r.fields == [])
    && ParseBody(r.fields, m[h + 4..]) == Some(r.body)
    && r.raw == m[..h + 4 + |r.body|]
  }

  lemma FramedParts(kind: Kind, m: string, r: Outcome) returns (e: nat, h: nat)
    requires r.Done? && Parse(kind, m) == r
    ensures Parts(kind, m, r, e, h)
  {
    hide ParseParameter, ParseFields, ParseBody, Find;
    BlankHasCrlf(m);
    e, h := Find(m, CRLF).value, Find(m, BLANK).value;
    BodyIsPrefix(r.fields, m[h + 4..]);
  }

  lemma BodyIsPrefix(fs: seq<Field>, rest: string)
    requires ParseBody(fs, rest).Some?
    ensures ParseBody(fs, rest).value <= rest
  {
    hide HasName, Chunked, ContentLength;
  }

  /** The parts make the answer. */
  lemma PartsAnswer(kind: Kind, m: string, r: Outcome, e: nat, h: nat)
    requires Parts(kind, m, r, e, h)
    ensures Parse(kind, m) == r
  {
    hide ParseParameter, ParseFields, ParseBody, Find;
  }

  lemma BodyByLength(fs: seq<Field>, rest: string)
    requires HasName(fs, LENGTH)
    ensures ParseBody(fs, rest) == if |rest| < ContentLength(fs) then None else Some(rest[..ContentLength(fs)])
  {
    hide HasName, ContentLength, Chunked;
  }

  /** The answer looks only at the header and at content-length bytes of the rest. */
  lemma SameAnswer(kind: Kind, m: string, r: Outcome, m': string)
    requires Framed(kind, m, r) && r.raw <= m'
    ensures Parse(kind, m') == r
  {
    hide ParseParameter, ParseFields, ParseBody, Find, Parse, HasName, ContentLength;
    var e, h := FramedParts(kind, m, r);
    var k := h + 4 + |r.body|;
    FindInPrefix(m, CRLF, k);
    FindInPrefix(m, BLANK, k);
    assert m' == r.raw + m'[k..];
    FindInMore(r.raw, CRLF, m'[k..]);
    FindInMore(r.raw, BLANK, m'[k..]);
    assert m'[..e] == m[..e] && m'[e + 2..h + 2] == m[e + 2..h + 2];
    BodyByLength(r.fields, m[h + 4..]);
    BodyByLength(r.fields, m'[h + 4..]);
    assert m'[h + 4..][..|r.body|] == m[h + 4..][..|r.body|];
    assert m'[..k] == r.raw;
    PartsAnswer(kind, m', r, e, h);
  }

  /** Every strict prefix of the message is incomplete. */
  lemma PrefixIncomplete(kind: Kind, m: string, r: Outcome, k: nat)
    requires Framed(kind, m, r) && k < |r.raw|
    ensures Parse(kind, m[..k]) == Incomplete
  {
    hide ParseParameter, ParseFields, ParseBody, Find, HasName, ContentLength;
    var e, h := FramedParts(kind, m, r);
    var p := m[..k];
    FindInPrefix(m, CRLF, k);
    FindInPrefix(m, BLANK, k);
    if k >= h + 4 {
      assert p[..e] == m[..e];
      assert p[e + 2..h + 2] == m[e + 2..h + 2];
      BodyByLength(r.fields, m[h + 4..]);
      BodyByLength(r.fields, p[h + 4..]);
    } else if k >= e + 2 {
      assert p[..e] == m[..e];
    }
  }

  /** The raw message is by itself the whole message, bytes behind it make no
      difference, and no strict prefix of it is a message. */
  lemma SelfDelimiting(kind: Kind, m: string, r: Outcome, rest: string)
    requires Framed(kind, m, r)
    ensures Parse(kind, r.raw + rest) == r
    ensures forall k: nat :: k < |r.raw| ==> Parse(kind, r.raw[..k]) == Incomplete
  {
    hide Parse, HasName;
    SameAnswer(kind, m, r, r.raw + rest);
    SameAnswer(kind, m, r, r.raw);
    forall k: nat | k < |r.raw|
      ensures Parse(kind, r.raw[..k]) == Incomplete
    {
      PrefixIncomplete(kind, r.raw, r, k);
    }
  }
}
