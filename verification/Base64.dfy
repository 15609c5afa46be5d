/** websocket/base64/base64.cpp against section 4 of RFC 4648. */
module Base64 {
  import opened Bytes

  // ------------------------------------------------------------------ the alphabet

  const UPPER := "ABCDEFGHIJKLMNOPQRSTUVWXYZ"
  const LOWER := "abcdefghijklmnopqrstuvwxyz"
  const OTHERS := "0123456789+/"

  /** base64_chars */
  const ALPHABET: string := UPPER + LOWER + OTHERS

  type Sextet = b: Byte | b < 64 witness 0

  function Char(v: Sextet): char {
    SextetIsSmall(v);
    ALPHABET[v as nat]
  }

  lemma SextetIsSmall(v: Sextet)
    ensures v as nat < 64 == |ALPHABET|
  {
    assert |UPPER| == 26 && |LOWER| == 26 && |OTHERS| == 12;
  }

  /** std::string::find */
  function Find(s: string, c: char): (r: Option<nat>)
    ensures r.Some? ==> r.value < |s| && s[r.value] == c && forall i :: 0 <= i < r.value ==> s[i] != c
    ensures r.None? ==> c !in s
  {
    if s == [] then None
    else if s[0] == c then Some(0)
    else
      var r := Find(s[1..], c);
      if r.Some? then Some(1 + r.value) else None
  }

  /** static_cast<unsigned char>(base64_chars.find(c)): npos becomes 0xFF. */
  function ValueOf(c: char): Byte {
    var r := Find(ALPHABET, c);
    if r.Some? && r.value < 256 then r.value as Byte else 0xFF
  }

  predicate IsBase64(c: char) {
    'A' <= c <= 'Z' || 'a' <= c <= 'z' || '0' <= c <= '9' || c == '+' || c == '/'
  }

  /** The same table by arithmetic. */
  function CodeOf(v: nat): nat {
    if v < 26 then 65 + v else if v < 52 then 97 + (v - 26) else if v < 62 then 48 + (v - 52) else if v == 62 then 43 else 47
  }

  lemma UpperAt(v: nat)
    requires v < 26
    ensures |UPPER| == 26 && UPPER[v] as nat == 65 + v
  {
    assert v == 0 || v == 1 || v == 2 || v == 3 || v == 4 || v == 5 || v == 6 || v == 7 || v == 8 || v == 9 || v == 10 || v == 11 || v == 12
        || v == 13 || v == 14 || v == 15 || v == 16 || v == 17 || v == 18 || v == 19 || v == 20 || v == 21 || v == 22 || v == 23 || v == 24 || v == 25;
  }

  lemma LowerAt(v: nat)
    requires v < 26
    ensures |LOWER| == 26 && LOWER[v] as nat == 97 + v
  {
    assert v == 0 || v == 1 || v == 2 || v == 3 || v == 4 || v == 5 || v == 6 || v == 7 || v == 8 || v == 9 || v == 10 || v == 11 || v == 12
        || v == 13 || v == 14 || v == 15 || v == 16 || v == 17 || v == 18 || v == 19 || v == 20 || v == 21 || v == 22 || v == 23 || v == 24 || v == 25;
  }

  lemma OthersAt(v: nat)
    requires v < 12
    ensures |OTHERS| == 12 && OTHERS[v] as nat == if v < 10 then 48 + v else if v == 10 then 43 else 47
  {
    assert v == 0 || v == 1 || v == 2 || v == 3 || v == 4 || v == 5 || v == 6 || v == 7 || v == 8 || v == 9 || v == 10 || v == 11;
  }

  lemma AlphabetAt(v: nat)
    requires v < 64
    ensures |ALPHABET| == 64 && ALPHABET[v] as nat == CodeOf(v)
  {
    assert |UPPER| == 26 && |LOWER| == 26 && |OTHERS| == 12;
    if v < 26 { UpperAt(v); } else if v < 52 { LowerAt(v - 26); } else { OthersAt(v - 52); }
  }

  /** Every value has a character of its own, and looking it up gives the value. */
  lemma FindChar(v: Sextet)
    ensures ValueOf(Char(v)) == v && IsBase64(Char(v)) && Char(v) != '='
  {
    SextetIsSmall(v);
    var i := v as nat;
    AlphabetAt(i);
    var r := Find(ALPHABET, Char(v));
    assert ALPHABET[i] in ALPHABET;
    AlphabetAt(r.value);
    assert r.value == i;
    BackAndThere(v);
  }

  /** The test for a digit is membership in the alphabet. */
  lemma AlphabetIff(c: char)
    ensures IsBase64(c) <==> c in ALPHABET
  {
    if IsBase64(c) { DigitHasValue(c); }
    if i :| 0 <= i < |ALPHABET| && ALPHABET[i] == c {
      SextetIsSmall(0);
      AlphabetAt(i);
    }
  }

  // ------------------------------------------------------------------ groups of 24 bits

  function S0(a: Byte): Sextet { (a & 0xfc) >> 2 }

  function S1(a: Byte, b: Byte): Sextet { ((a & 0x03) << 4) | ((b & 0xf0) >> 4) }

  function S2(b: Byte, c: Byte): Sextet { ((b & 0x0f) << 2) | ((c & 0xc0) >> 6) }

  function S3(c: Byte): Sextet { c & 0x3f }

  function B0(p: Byte, q: Byte): Byte { (p << 2) | ((q & 0x30) >> 4) }

  function B1(q: Byte, r: Byte): Byte { ((q & 0xf) << 4) | ((r & 0x3c) >> 2) }

  function B2(r: Byte, s: Byte): Byte { ((r & 0x3) << 6) | s }

  /** Three bytes and their four sextets are the same 24 bits. */
  lemma GroupBits(a: Byte, b: Byte, c: Byte)
    ensures ((a as bv24) << 16) | ((b as bv24) << 8) | (c as bv24)
         == ((S0(a) as bv24) << 18) | ((S1(a, b) as bv24) << 12) | ((S2(b, c) as bv24) << 6) | (S3(c) as bv24)
  {
  }

  lemma GroupBack(a: Byte, b: Byte, c: Byte)
    ensures B0(S0(a), S1(a, b)) == a && B1(S1(a, b), S2(b, c)) == b && B2(S2(b, c), S3(c)) == c
  {
  }

  /** The sums of the code are unions: the parts share no bit. */
  lemma SumsAreUnions(a: Byte, b: Byte, c: Byte)
    ensures ((a & 0x03) << 4) + ((b & 0xf0) >> 4) == S1(a, b)
    ensures ((b & 0x0f) << 2) + ((c & 0xc0) >> 6) == S2(b, c)
  {
  }

  lemma SumsBack(p: Byte, q: Byte, r: Byte, s: Byte)
    requires p < 64 && q < 64 && r < 64 && s < 64
    ensures (p << 2) + ((q & 0x30) >> 4) == B0(p, q)
    ensures ((q & 0xf) << 4) + ((r & 0x3c) >> 2) == B1(q, r)
    ensures ((r & 0x3) << 6) + s == B2(r, s)
  {
  }

  // ------------------------------------------------------------- the standard

  /** The characters of a whole group. */
  function Quad(a: Byte, b: Byte, c: Byte): (q: string)
    ensures |q| == 4
  {
    [Char(S0(a)), Char(S1(a, b)), Char(S2(b, c)), Char(S3(c))]
  }

  /** Section 4: groups of three bytes, and the two padded tails. */
  function Encode(b: seq<Byte>): string {
    if b == [] then []
    else if |b| == 1 then Quad(b[0], 0, 0)[..2] + "=="
    else if |b| == 2 then Quad(b[0], b[1], 0)[..3] + "="
    else Quad(b[0], b[1], b[2]) + Encode(b[3..])
  }

  /** How many of the first characters are digits of the alphabet, up to four. */
  function Digits(s: string): (k: nat)
    ensures k <= 4 && k <= |s|
  {
    if s == [] || !IsBase64(s[0]) then 0
    else if |s| == 1 || !IsBase64(s[1]) then 1
    else if |s| == 2 || !IsBase64(s[2]) then 2
    else if |s| == 3 || !IsBase64(s[3]) then 3
    else 4
  }

  /** Three bytes of four characters. */
  function Triple(s: string): (b: seq<Byte>)
    requires |s| >= 4
    ensures |b| == 3
  {
    [B0(ValueOf(s[0]), ValueOf(s[1])), B1(ValueOf(s[1]), ValueOf(s[2])), B2(ValueOf(s[2]), ValueOf(s[3]))]
  }

  /** Decoding goes on until the first character outside the alphabet; a last group
      of k characters gives k - 1 bytes. */
  function Decode(s: string): seq<Byte> {
    var k := Digits(s);
    if k == 4 then Triple(s) + Decode(s[4..])
    else if k == 3 then [B0(ValueOf(s[0]), ValueOf(s[1])), B1(ValueOf(s[1]), ValueOf(s[2]))]
    else if k == 2 then [B0(ValueOf(s[0]), ValueOf(s[1]))]
    else []
  }

  // ------------------------------------------------------------------- properties

  /** Whole groups of four characters, one for each three bytes begun. */
  lemma {:induction false} EncodedLength(b: seq<Byte>)
    ensures |Encode(b)| == 4 * ((|b| + 2) / 3)
    decreases |b|
  {
    if |b| >= 3 {
      EncodedLength(b[3..]);
    }
  }

  lemma QuadDecodes(a: Byte, b: Byte, c: Byte)
    ensures var q := Quad(a, b, c);
            && ValueOf(q[0]) == S0(a) && ValueOf(q[1]) == S1(a, b) && ValueOf(q[2]) == S2(b, c) && ValueOf(q[3]) == S3(c)
            && IsBase64(q[0]) && IsBase64(q[1]) && IsBase64(q[2]) && IsBase64(q[3])
  {
    FindChar(S0(a));
    FindChar(S1(a, b));
    FindChar(S2(b, c));
    FindChar(S3(c));
    hide ValueOf, Char;
  }

  /** Decoding undoes encoding, both padded tails included. */
  lemma {:induction false} RoundTrip(b: seq<Byte>)
    ensures Decode(Encode(b)) == b
    decreases |b|
  {
    hide Encode, Decode, Quad;
    if |b| >= 3 {
      RoundTrip(b[3..]);
      GroupDecodes(b[0], b[1], b[2], Encode(b[3..]));
      EncodeGroup(b);
      assert b == [b[0], b[1], b[2]] + b[3..];
    } else {
      TailRoundTrip(b);
    }
  }

  lemma {:induction false} TailRoundTrip(b: seq<Byte>)
    requires |b| < 3
    ensures Decode(Encode(b)) == b
  {
    hide Quad;
    if |b| == 2 {
      TailDecodes(b[0], b[1]);
      assert b == [b[0], b[1]];
    } else if |b| == 1 {
      TailDecodes(b[0], 0);
      assert b == [b[0]];
    }
  }

  lemma GroupDecodes(x: Byte, y: Byte, z: Byte, rest: string)
    ensures Decode(Quad(x, y, z) + rest) == [x, y, z] + Decode(rest)
  {
    QuadDecodes(x, y, z);
    GroupBack(x, y, z);
    hide ValueOf, Char, B0, B1, B2, S0, S1, S2, S3, IsBase64, Quad;
    var s := Quad(x, y, z) + rest;
    assert s[4..] == rest && Digits(s) == 4;
  }

  lemma TailDecodes(x: Byte, y: Byte)
    ensures Decode(Quad(x, y, 0)[..3] + "=") == [x, y]
    ensures y == 0 ==> Decode(Quad(x, y, 0)[..2] + "==") == [x]
  {
    QuadDecodes(x, y, 0);
    GroupBack(x, y, 0);
    PadIsNoDigit();
    hide ValueOf, Char, B0, B1, B2, S0, S1, S2, S3, IsBase64, Quad;
    assert Digits(Quad(x, y, 0)[..3] + "=") == 3;
    assert Digits(Quad(x, y, 0)[..2] + "==") == 2;
  }

  lemma PadIsNoDigit()
    ensures !IsBase64('=')
  {
  }

  /** So no two byte strings are encoded alike. */
  lemma EncodeInjective(b: seq<Byte>, c: seq<Byte>)
    requires Encode(b) == Encode(c)
    ensures b == c
  {
    RoundTrip(b);
    RoundTrip(c);
  }

  // ------------------------------------------------ the standard, character by character

  /** Byte i of the input, with zeros behind it. */
  function At(b: seq<Byte>, i: nat): Byte {
    if i < |b| then b[i] else 0
  }

  /** The 24 bits of group j. */
  function Group(b: seq<Byte>, j: nat): bv24 {
    Joined(At(b, 3 * j), At(b, 3 * j + 1), At(b, 3 * j + 2))
  }

  function Joined(x: Byte, y: Byte, z: Byte): bv24 {
    ((x as bv24) << 16) | ((y as bv24) << 8) | (z as bv24)
  }

  /** Six bits of them, the highest first. */
  function Sixth(g: bv24, k: nat): Byte
    requires k < 4
  {
    var low := if k == 0 then g >> 18 else if k == 1 then g >> 12 else if k == 2 then g >> 6 else g;
    (low & 0x3f) as Byte
  }

  /** The character the standard's table has for them. */
  function Code(b: seq<Byte>, j: nat, k: nat): nat
    requires k < 4
  {
    CodeOf(Sixth(Group(b, j), k) as nat)
  }

  lemma SixthsOfGroup(x: Byte, y: Byte, z: Byte)
    ensures var g := Joined(x, y, z);
            Sixth(g, 0) == S0(x) && Sixth(g, 1) == S1(x, y) && Sixth(g, 2) == S2(y, z) && Sixth(g, 3) == S3(z)
  {
  }

  lemma QuadCodes(x: Byte, y: Byte, z: Byte)
    ensures var q := Quad(x, y, z);
            && q[0] as nat == CodeOf(S0(x) as nat) && q[1] as nat == CodeOf(S1(x, y) as nat)
            && q[2] as nat == CodeOf(S2(y, z) as nat) && q[3] as nat == CodeOf(S3(z) as nat)
    ensures forall i :: 0 <= i < 4 ==> Quad(x, y, z)[i] != '='
  {
    hide S0, S1, S2, S3, ValueOf, CodeOf;
    CharCode(S0(x));
    CharCode(S1(x, y));
    CharCode(S2(y, z));
    CharCode(S3(z));
  }

  lemma CharCode(v: Sextet)
    ensures Char(v) as nat == CodeOf(v as nat) && Char(v) != '='
  {
    SextetIsSmall(v);
    AlphabetAt(v as nat);
    FindChar(v);
  }

  /** The characters of group j are the group's bits, six by six, as far as there
      are bytes; what is left is padding. */
  predicate Spelt(b: seq<Byte>, e: string, j: nat)
    requires 4 * j + 4 <= |e|
  {
    && e[4 * j] as nat == Code(b, j, 0) && e[4 * j + 1] as nat == Code(b, j, 1)
    && (if 3 * j + 1 < |b| then e[4 * j + 2] as nat == Code(b, j, 2) else e[4 * j + 2] == '=')
    && (if 3 * j + 2 < |b| then e[4 * j + 3] as nat == Code(b, j, 3) else e[4 * j + 3] == '=')
  }

  lemma FirstCodes(b: seq<Byte>)
    ensures var q := Quad(At(b, 0), At(b, 1), At(b, 2));
            q[0] as nat == Code(b, 0, 0) && q[1] as nat == Code(b, 0, 1) && q[2] as nat == Code(b, 0, 2) && q[3] as nat == Code(b, 0, 3)
  {
    hide CodeOf, Quad, Sixth, Joined, S0, S1, S2, S3, Char;
    var x, y, z := At(b, 0), At(b, 1), At(b, 2);
    SixthsOfGroup(x, y, z);
    QuadCodes(x, y, z);
  }

  lemma FirstGroup(b: seq<Byte>)
    requires b != []
    ensures |Encode(b)| >= 4 && Spelt(b, Encode(b), 0)
  {
    hide Code, Quad;
    FirstCodes(b);
    var q := Quad(At(b, 0), At(b, 1), At(b, 2));
    assert Encode(b)[..4] == q[..2] + (if |b| == 1 then "==" else if |b| == 2 then [q[2], '='] else q[2..]);
  }

  lemma CodeShifts(b: seq<Byte>, j: nat, k: nat)
    requires |b| >= 3 && k < 4
    ensures Code(b[3..], j, k) == Code(b, j + 1, k)
  {
    hide CodeOf, Sixth, Joined;
    assert At(b[3..], 3 * j) == At(b, 3 * j + 3) && At(b[3..], 3 * j + 1) == At(b, 3 * j + 4) && At(b[3..], 3 * j + 2) == At(b, 3 * j + 5);
  }

  lemma GroupShifts(b: seq<Byte>, q: string, e: string, j: nat)
    requires |b| >= 3 && |q| == 4 && |e| >= 4 * j + 4 && Spelt(b[3..], e, j)
    ensures Spelt(b, q + e, j + 1)
  {
    hide Code;
    CodeShifts(b, j, 0);
    CodeShifts(b, j, 1);
    CodeShifts(b, j, 2);
    CodeShifts(b, j, 3);
    var at := 4 * j + 4;
    assert (q + e)[at] == e[at - 4] && (q + e)[at + 1] == e[at - 3] && (q + e)[at + 2] == e[at - 2] && (q + e)[at + 3] == e[at - 1];
  }

  /** Section 4 of the standard, for every group: which bits each character stands
      for, and where the padding is. */
  lemma {:induction false} EncodedGroup(b: seq<Byte>, j: nat)
    requires 3 * j < |b|
    ensures |Encode(b)| >= 4 * j + 4 && Spelt(b, Encode(b), j)
    decreases j
  {
    hide Spelt, Encode, Quad;
    if j == 0 {
      FirstGroup(b);
    } else {
      EncodedGroup(b[3..], j - 1);
      EncodeGroup(b);
      GroupShifts(b, Quad(b[0], b[1], b[2]), Encode(b[3..]), j - 1);
    }
  }

  /** The padding: as many characters as bytes are missing in the last group, at the
      end and nowhere else. */
  lemma PaddedExactly(b: seq<Byte>, i: nat)
    requires i < |Encode(b)|
    ensures Encode(b)[i] == '=' <==> i >= |Encode(b)| - (3 - |b| % 3) % 3
  {
    hide Encode, Code;
    EncodedLength(b);
    var j := i / 4;
    EncodedGroup(b, j);
    CodeIsNoPad(b, j, 0);
    CodeIsNoPad(b, j, 1);
    CodeIsNoPad(b, j, 2);
    CodeIsNoPad(b, j, 3);
    assert i == 4 * j || i == 4 * j + 1 || i == 4 * j + 2 || i == 4 * j + 3;
  }

  lemma CodeIsNoPad(b: seq<Byte>, j: nat, k: nat)
    requires k < 4
    ensures Code(b, j, k) != '=' as nat
  {
    hide Group, Sixth;
  }

  // ------------------------------------------------------------------ the methods

  /** The four index bytes of a group, as base64_encode computes them. */
  method Split(x: seq<Byte>) returns (v: seq<Byte>)
    requires |x| == 3
    ensures v == [S0(x[0]), S1(x[0], x[1]), S2(x[1], x[2]), S3(x[2])]
  {
    SumsAreUnions(x[0], x[1], x[2]);
    v := [(x[0] & 0xfc) >> 2, ((x[0] & 0x03) << 4) + ((x[1] & 0xf0) >> 4), ((x[1] & 0x0f) << 2) + ((x[2] & 0xc0) >> 6), x[2] & 0x3f];
  }

  /** One byte more in the group begun. */
  lemma Pushed(chars: seq<Byte>, i: nat, bytes: seq<Byte>, from: nat)
    requires |chars| == 3 && i < 3 && from + i < |bytes| && chars[..i] == bytes[from..from + i]
    ensures chars[i := bytes[from + i]][..i + 1] == bytes[from..from + i + 1]
    ensures i == 2 ==> chars[i := bytes[from + i]] == bytes[from..from + 3]
  {
    var next := chars[i := bytes[from + i]];
    assert next[..i + 1] == chars[..i] + [bytes[from + i]];
    assert bytes[from..from + i + 1] == bytes[from..from + i] + [bytes[from + i]];
    assert i == 2 ==> next == next[..i + 1];
  }

  /** base64_encode */
  method Base64Encode(bytes: seq<Byte>) returns (ret: string)
    ensures ret == Encode(bytes)
  {
    hide Encode, Quad, Char;
    ret := [];
    var i := 0;
    var chars: seq<Byte> := [0, 0, 0];
    ghost var from := 0;
    assert bytes[0..] == bytes && [] + Encode(bytes) == Encode(bytes);
    for n := 0 to |bytes|
      invariant 0 <= i < 3 && from + i == n && |chars| == 3 && chars[..i] == bytes[from..from + i]
      invariant Encode(bytes) == ret + Encode(bytes[from..])
    {
      Pushed(chars, i, bytes, from);
      chars := chars[i := bytes[n]];
      i := i + 1;
      if i == 3 {
        var quad := EncodeQuad(chars);
        EncodeOn(bytes, from, chars, ret);
        ret := ret + quad;
        i, from := 0, from + 3;
      }
    }
    assert bytes[from..] == bytes[from..from + i];
    if i > 0 {
      var tail := EncodeTail(chars, i);
      ret := ret + tail;
    } else {
      EncodeNothing();
      assert ret + [] == ret;
    }
  }

  /** A group more. */
  lemma EncodeOn(b: seq<Byte>, from: nat, chars: seq<Byte>, ret: string)
    requires from + 3 <= |b| && chars == b[from..from + 3]
    requires Encode(b) == ret + Encode(b[from..])
    ensures Encode(b) == (ret + Quad(chars[0], chars[1], chars[2])) + Encode(b[from + 3..])
  {
    hide Encode, Quad;
    EncodeStep(b, from, chars);
    Regroup(ret, Quad(chars[0], chars[1], chars[2]), Encode(b[from + 3..]));
  }

  lemma Regroup(a: string, b: string, c: string)
    ensures a + (b + c) == (a + b) + c
  {
  }

  lemma EncodeNothing()
    ensures Encode([]) == []
  {
  }

  lemma {:induction false} EncodeGroup(b: seq<Byte>)
    requires |b| >= 3
    ensures Encode(b) == Quad(b[0], b[1], b[2]) + Encode(b[3..])
  {
  }

  lemma EncodeStep(b: seq<Byte>, from: nat, chars: seq<Byte>)
    requires from + 3 <= |b| && chars == b[from..from + 3]
    ensures Encode(b[from..]) == Quad(chars[0], chars[1], chars[2]) + Encode(b[from + 3..])
  {
    hide Encode, Quad;
    var r := b[from..];
    EncodeGroup(r);
    assert r[3..] == b[from + 3..];
    assert chars[0] == b[from] == r[0] && chars[1] == b[from + 1] == r[1] && chars[2] == b[from + 2] == r[2];
  }

  method EncodeQuad(x: seq<Byte>) returns (quad: string)
    requires |x| == 3
    ensures quad == Quad(x[0], x[1], x[2])
  {
    hide Char;
    var v := Split(x);
    quad := [];
    for i := 0 to 4
      invariant quad == [Char(v[0]), Char(v[1]), Char(v[2]), Char(v[3])][..i]
    {
      quad := quad + [Char(v[i])];
    }
  }

  /** What is left over is filled up with zero bytes; the missing characters become
      '='. */
  method EncodeTail(left: seq<Byte>, count: nat) returns (ret: string)
    requires |left| == 3 && 1 <= count < 3
    ensures ret == Encode(left[..count])
  {
    hide Char;
    var chars, i := left, count;
    for j := i to 3
      invariant |chars| == 3 && chars[..count] == left[..count] && forall k :: count <= k < j ==> chars[k] == 0
    {
      chars := chars[j := 0];
    }
    var quad := EncodeQuad(chars);
    assert chars == left[..count] + (if count == 1 then [0, 0] else [0]);
    ret := [];
    for j := 0 to count + 1
      invariant ret == quad[..j]
    {
      ret := ret + [quad[j]];
    }
    while i < 3
      invariant count <= i <= 3 && ret == quad[..count + 1] + seq(i - count, k => '=')
    {
      i := i + 1;
      ret := ret + ['='];
    }
  }

  // ------------------------------------------------------------------ decoding

  /** Every character of the alphabet has a value. */
  lemma DigitHasValue(c: char)
    requires IsBase64(c)
    ensures ValueOf(c) < 64
  {
    var v: nat := if 'a' <= c <= 'z' then 26 + (c as nat - 97) else if 'A' <= c <= 'Z' then c as nat - 65
                  else if '0' <= c <= '9' then 52 + (c as nat - 48) else if c == '+' then 62 else 63;
    AlphabetAt(v);
    assert ALPHABET[v] == c;
    var r := Find(ALPHABET, c);
    AlphabetSize(r.value);
  }

  lemma AlphabetSize(i: nat)
    requires i < |ALPHABET|
    ensures i < 64 && i as Byte < 64
  {
    AlphabetAt(0);
    SmallByte(i);
  }

  /** The bytes of four values, as base64_decode computes them. */
  method Merge(v: seq<Byte>) returns (x: seq<Byte>)
    requires |v| == 4 && v[0] < 64 && v[1] < 64
    ensures |x| == 3 && x[0] == B0(v[0], v[1])
    ensures v[2] < 64 ==> x[1] == B1(v[1], v[2])
    ensures v[2] < 64 && v[3] < 64 ==> x[2] == B2(v[2], v[3])
  {
    SumsBack(v[0], v[1], if v[2] < 64 then v[2] else 0, if v[3] < 64 then v[3] else 0);
    x := [(v[0] << 2) + ((v[1] & 0x30) >> 4), ((v[1] & 0xf) << 4) + ((v[2] & 0x3c) >> 2), ((v[2] & 0x3) << 6) + v[3]];
  }

  lemma QuadGrows(quad: string, s: string, from: nat, i: nat)
    requires |quad| == 4 && i < 4 && from + i < |s| && quad[..i] == s[from..from + i]
    ensures quad[i := s[from + i]][..i + 1] == s[from..from + i + 1]
  {
    assert quad[i := s[from + i]][..i + 1] == quad[..i] + [s[from + i]];
  }

  /** base64_decode */
  method Base64Decode(s: string) returns (ret: seq<Byte>)
    ensures ret == Decode(s)
  {
    hide IsBase64, ValueOf, Triple, Decode;
    ret := [];
    var i, n := 0, 0;
    var quad: string := ['A', 'A', 'A', 'A'];
    assert s[0..] == s && ret + Decode(s) == Decode(s);
    while n < |s| && s[n] != '=' && IsBase64(s[n])
      invariant 0 <= i < 4 && i <= n <= |s| && |quad| == 4 && quad[..i] == s[n - i..n]
      invariant forall k :: 0 <= k < i ==> IsBase64(quad[k])
      invariant Decode(s) == ret + Decode(s[n - i..])
      decreases |s| - n
    {
      ghost var from := n - i;
      QuadGrows(quad, s, from, i);
      quad := quad[i := s[n]];
      i, n := i + 1, n + 1;
      if i == 4 {
        assert quad == s[from..from + 4];
        var three := DecodeQuad(quad);
        DecodeStep(s, from, quad);
        assert (ret + three) + Decode(s[from + 4..]) == ret + (three + Decode(s[from + 4..]));
        ret := ret + three;
        i := 0;
      }
    }
    PadIsNoDigit();
    assert s[n - i..] == quad[..i] + s[n..];
    var tail := DecodeTail(quad, i, s[n..]);
    ret := ret + tail;
  }

  lemma {:induction false} DecodeGroup(s: string, quad: string)
    requires |s| >= 4 && quad == s[..4] && forall k :: 0 <= k < 4 ==> IsBase64(quad[k])
    ensures Decode(s) == Triple(quad) + Decode(s[4..])
  {
    hide IsBase64, ValueOf;
  }

  lemma DecodeStep(s: string, from: nat, quad: string)
    requires from + 4 <= |s| && quad == s[from..from + 4] && forall k :: 0 <= k < 4 ==> IsBase64(quad[k])
    ensures Decode(s[from..]) == Triple(quad) + Decode(s[from + 4..])
  {
    hide Decode, Triple, IsBase64;
    assert s[from..][..4] == quad && s[from..][4..] == s[from + 4..];
    DecodeGroup(s[from..], quad);
  }

  method DecodeQuad(quad: string) returns (x: seq<Byte>)
    requires |quad| == 4 && forall k :: 0 <= k < 4 ==> IsBase64(quad[k])
    ensures x == Triple(quad)
  {
    hide ValueOf, IsBase64;
    var v: seq<Byte> := [];
    for k := 0 to 4
      invariant v == [ValueOf(quad[0]), ValueOf(quad[1]), ValueOf(quad[2]), ValueOf(quad[3])][..k]
      invariant forall j :: 0 <= j < k ==> v[j] < 64
    {
      DigitHasValue(quad[k]);
      v := v + [ValueOf(quad[k])];
    }
    x := Merge(v);
  }

  /** The last group, filled up with zero characters, whose value is 0xFF. */
  method DecodeTail(quad: string, i: nat, ghost rest: string) returns (ret: seq<Byte>)
    requires |quad| == 4 && i < 4 && forall k :: 0 <= k < i ==> IsBase64(quad[k])
    requires rest == [] || !IsBase64(rest[0])
    ensures ret == Decode(quad[..i] + rest)
  {
    hide ValueOf, IsBase64, B0, B1, B2;
    ret := [];
    ghost var s := quad[..i] + rest;
    assert Digits(s) == i;
    if i > 0 {
      var v: seq<Byte> := [];
      for j := 0 to 4
        invariant |v| == j && forall k :: 0 <= k < j && k < i ==> v[k] == ValueOf(quad[k]) && v[k] < 64
      {
        if j < i { DigitHasValue(quad[j]); }
        v := v + [ValueOf(if j < i then quad[j] else '\0')];
      }
      if i > 1 {
        var x := Merge(v);
        ret := x[..i - 1];
      }
    }
  }
}
