/** The parts of the C and C++ libraries that the HTTP code leans on: searching a
    string, printing a number and reading one. */
module HttpText {
  import opened Bytes

  const CRLF := "\r\n"
  const BLANK := "\r\n\r\n"

  // ------------------------------------------------------------------ searching

  predicate Stands(s: string, pat: string, i: int) {
    0 <= i && i + |pat| <= |s| && s[i..i + |pat|] == pat
  }

  /** std::string::find: the first place where the pattern stands. */
  function Find(s: string, pat: string): (r: Option<nat>)
    requires pat != []
    ensures r.Some? ==> Stands(s, pat, r.value) && forall i :: 0 <= i < r.value ==> !Stands(s, pat, i)
    ensures r.None? ==> forall i :: !Stands(s, pat, i)
  {
    if |s| < |pat| then None
    else if Stands(s, pat, 0) then Some(0)
    else
      var r := Find(s[1..], pat);
      TailAt(s, pat);
      if r.Some? then Some(1 + r.value) else None
  }

  lemma TailAt(s: string, pat: string)
    requires s != []
    ensures forall i :: Stands(s[1..], pat, i) ==> Stands(s, pat, i + 1)
    ensures forall i :: i > 0 && Stands(s, pat, i) ==> Stands(s[1..], pat, i - 1)
  {
    forall i | Stands(s[1..], pat, i)
      ensures Stands(s, pat, i + 1)
    {
      assert s[1..][i..i + |pat|] == s[i + 1..i + 1 + |pat|];
    }
    forall i | i > 0 && Stands(s, pat, i)
      ensures Stands(s[1..], pat, i - 1)
    {
      assert s[1..][i - 1..i - 1 + |pat|] == s[i..i + |pat|];
    }
  }

  /** The first place is the only answer. */
  lemma FindIs(s: string, pat: string, i: nat)
    requires pat != [] && Stands(s, pat, i) && forall j :: 0 <= j < i ==> !Stands(s, pat, j)
    ensures Find(s, pat) == Some(i)
  {
  }

  /** find with a starting position. */
  function FindFrom(s: string, pat: string, from: nat): (r: Option<nat>)
    requires pat != []
    ensures r.Some? ==> from <= r.value && r.value + |pat| <= |s|
  {
    if from > |s| then None
    else
      var r := Find(s[from..], pat);
      if r.Some? then Some(from + r.value) else None
  }

  // ------------------------------------------------------------------ numbers

  predicate IsDigit(c: char) {
    '0' <= c <= '9'
  }

  function Digit(n: nat): (c: char)
    requires n < 10
    ensures IsDigit(c) && c as nat - 48 == n
  {
    (48 + n) as char
  }

  /** std::to_string of a number that is not negative. */
  function Decimal(n: nat): (s: string)
    ensures s != []
    ensures forall c :: c in s ==> IsDigit(c)
  {
    if n < 10 then [Digit(n)] else Decimal(n / 10) + [Digit(n % 10)]
  }

  /** std::to_string */
  function Signed(n: int): string {
    if n < 0 then "-" + Decimal(-n) else Decimal(n)
  }

  predicate IsSpace(c: char) {
    c == ' ' || ('\t' <= c <= '\r')
  }

  function Trim(s: string): string {
    if s != [] && IsSpace(s[0]) then Trim(s[1..]) else s
  }

  /** The digits a string begins with, read on from acc. */
  function Digits(s: string, acc: nat): nat {
    if s != [] && IsDigit(s[0]) then Digits(s[1..], 10 * acc + (s[0] as nat - 48)) else acc
  }

  const LLONG_MAX := 0x7FFF_FFFF_FFFF_FFFF

  /** std::strtoll in base 10: blanks, a sign, digits; the ends are held at the
      limits. */
  function StrToLL(s: string): int {
    var t := Trim(s);
    if t == [] then 0
    else if t[0] == '-' then
      var n := Digits(t[1..], 0);
      if n > LLONG_MAX then -LLONG_MAX - 1 else 0 - n
    else
      var n := Digits(if t[0] == '+' then t[1..] else t, 0);
      if n > LLONG_MAX then LLONG_MAX else n
  }

  /** Reading the digits of a printed number on from nothing gives the number. */
  lemma {:induction false} DigitsOfDecimal(n: nat, rest: string)
    ensures Digits(Decimal(n) + rest, 0) == Digits(rest, n)
    decreases n
  {
    if n < 10 {
      assert (Decimal(n) + rest)[1..] == rest;
    } else {
      var last := [Digit(n % 10)];
      DigitsOfDecimal(n / 10, last + rest);
      assert Decimal(n) + rest == Decimal(n / 10) + (last + rest);
      assert (last + rest)[1..] == rest;
    }
  }

  /** strtoll undoes to_string below 2^63. */
  lemma ReadDecimal(n: nat)
    requires n <= LLONG_MAX
    ensures StrToLL(Decimal(n)) == n
  {
    DigitsOfDecimal(n, []);
    assert Decimal(n) + [] == Decimal(n);
    assert Decimal(n)[0] in Decimal(n);
    assert Trim(Decimal(n)) == Decimal(n);
  }

  /** What strtoll skips: tab, line feed, vertical tab, form feed, return, blank. */
  predicate Blanks(s: string) {
    forall i :: 0 <= i < |s| ==> s[i] as nat in {9, 10, 11, 12, 13, 32}
  }

  lemma {:induction false} TrimBlanks(blanks: string, s: string)
    requires Blanks(blanks) && (s == "" || s[0] as nat !in {9, 10, 11, 12, 13, 32})
    ensures Trim(blanks + s) == s
  {
    if blanks != "" {
      assert (blanks + s)[1..] == blanks[1..] + s;
      TrimBlanks(blanks[1..], s);
    } else {
      assert blanks + s == s;
    }
  }

  function Held(n: int): int {
    if n > LLONG_MAX then LLONG_MAX else if n < -LLONG_MAX - 1 then -LLONG_MAX - 1 else n
  }

  lemma BlanksSkipped(blanks: string, s: string)
    requires Blanks(blanks) && (s == "" || s[0] as nat !in {9, 10, 11, 12, 13, 32})
    ensures StrToLL(blanks + s) == StrToLL(s)
  {
    hide Trim, Digits;
    TrimBlanks(blanks, s);
    TrimBlanks("", s);
    assert "" + s == s;
  }

  lemma DigitsRead(n: nat, rest: string)
    requires rest == "" || !IsDigit(rest[0])
    ensures StrToLL(Decimal(n) + rest) == StrToLL("+" + (Decimal(n) + rest)) == Held(n)
    ensures StrToLL("-" + (Decimal(n) + rest)) == Held(0 - n)
  {
    hide Decimal;
    var digits := Decimal(n) + rest;
    assert Decimal(n)[0] in Decimal(n) && digits[0] == Decimal(n)[0];
    DigitsOfDecimal(n, rest);
    assert Trim(digits) == digits && Trim("+" + digits) == "+" + digits && Trim("-" + digits) == "-" + digits;
    assert ("+" + digits)[1..] == digits && ("-" + digits)[1..] == digits;
  }

  /** strtoll of any text: blanks, a number with its sign, and whatever does not go on
      with a digit; the value is held within 64 bits. */
  lemma ReadSigned(blanks: string, n: int, rest: string)
    requires Blanks(blanks) && (rest == "" || !IsDigit(rest[0]))
    ensures StrToLL(blanks + (Signed(n) + rest)) == Held(n)
    ensures n >= 0 ==> StrToLL(blanks + ("+" + (Signed(n) + rest))) == Held(n)
  {
    hide StrToLL, Decimal, Held;
    var digits := Decimal(if n < 0 then -n else n);
    assert digits[0] in digits;
    DigitsRead(if n < 0 then -n else n, rest);
    BlanksSkipped(blanks, Signed(n) + rest);
    BlanksSkipped(blanks, "+" + (Signed(n) + rest));
    assert n < 0 ==> Signed(n) + rest == "-" + (digits + rest);
  }

  /** And of a text without a number. */
  lemma ReadNothing(blanks: string, rest: string)
    requires Blanks(blanks)
    requires rest == "" || (!IsDigit(rest[0]) && rest[0] != '-' && rest[0] != '+' && rest[0] as nat !in {9, 10, 11, 12, 13, 32})
    ensures StrToLL(blanks + rest) == 0
  {
    TrimBlanks(blanks, rest);
  }

  // ------------------------------------------------------------------ characters

  /** std::tolower in the C locale. */
  function ToLower(c: char): char {
    if 'A' <= c <= 'Z' then (c as int + 32) as char else c
  }

  function Fold(s: string): (f: string)
    ensures |f| == |s|
  {
    seq(|s|, i requires 0 <= i < |s| => ToLower(s[i]))
  }

  /** The 26 letters, in either case. */
  const CAPITALS := "ABCDEFGHIJKLMNOPQRSTUVWXYZ"
  const SMALLS := "abcdefghijklmnopqrstuvwxyz"

  lemma LetterAt(k: nat)
    requires k < 26
    ensures |CAPITALS| == |SMALLS| == 26
    ensures CAPITALS[k] as int == 'A' as int + k && SMALLS[k] as int == 'a' as int + k
  {
    assert k == 0 || k == 1 || k == 2 || k == 3 || k == 4 || k == 5 || k == 6 || k == 7 || k == 8 || k == 9 || k == 10 || k == 11 || k == 12
        || k == 13 || k == 14 || k == 15 || k == 16 || k == 17 || k == 18 || k == 19 || k == 20 || k == 21 || k == 22 || k == 23 || k == 24 || k == 25;
  }

  predicate Cases(c: char, d: char, k: nat) {
    k < |CAPITALS| && k < |SMALLS| && ((c == CAPITALS[k] && d == SMALLS[k]) || (c == SMALLS[k] && d == CAPITALS[k]))
  }

  /** Two characters are the same without case: equal, or one letter twice. */
  ghost predicate SameLetter(c: char, d: char) {
    c == d || exists k: nat :: Cases(c, d, k)
  }

  lemma SameLetterIff(c: char, d: char)
    ensures ToLower(c) == ToLower(d) <==> SameLetter(c, d)
  {
    LetterAt(0);
    hide ToLower;
    LowerIs(c);
    LowerIs(d);
    if ToLower(c) == ToLower(d) && c != d {
      var k := ToLower(c) as int - 'a' as int;
      LetterAt(k);
      assert Cases(c, d, k);
    }
    if k: nat :| Cases(c, d, k) {
      LetterAt(k);
    }
  }

  lemma LowerIs(c: char)
    ensures ToLower(c) as int == if 'A' as int <= c as int <= 'Z' as int then c as int + 32 else c as int
  {
  }

  /** Names compared without case are the same letter by letter. */
  lemma FoldSameIff(s: string, t: string)
    ensures Fold(s) == Fold(t) <==> |s| == |t| && forall i :: 0 <= i < |s| ==> SameLetter(s[i], t[i])
  {
    hide SameLetter, ToLower;
    if |s| == |t| {
      forall i | 0 <= i < |s|
        ensures Fold(s)[i] == Fold(t)[i] <==> SameLetter(s[i], t[i])
      {
        SameLetterIff(s[i], t[i]);
      }
    }
  }

  /** The order of std::string. */
  predicate Leq(s: string, t: string) {
    s == [] || (t != [] && (s[0] < t[0] || (s[0] == t[0] && Leq(s[1..], t[1..]))))
  }

  /** s stops, or has the smaller character, where the two first differ. */
  predicate Before(s: string, t: string, i: nat) {
    i <= |s| && i <= |t| && s[..i] == t[..i] && (i == |s| || (i < |t| && s[i] < t[i]))
  }

  lemma {:induction false} LeqIff(s: string, t: string)
    ensures Leq(s, t) <==> exists i: nat :: Before(s, t, i)
  {
    if s == [] {
      assert Before(s, t, 0);
    } else if t != [] && s[0] == t[0] {
      LeqIff(s[1..], t[1..]);
      forall i: nat
        ensures Before(s, t, i + 1) <==> Before(s[1..], t[1..], i)
      {
        BeforeTail(s, t, i);
      }
      assert !Before(s, t, 0);
      if Leq(s, t) {
        var i: nat :| Before(s[1..], t[1..], i);
        assert Before(s, t, i + 1);
      }
      if i: nat :| Before(s, t, i) {
        assert Before(s[1..], t[1..], i - 1);
      }
    } else {
      forall i: nat
        ensures Before(s, t, i) ==> i == 0
      {
        if Before(s, t, i) && i > 0 { BeforeFirst(s, t, i); }
      }
      if t != [] && s[0] < t[0] { assert Before(s, t, 0); }
    }
  }

  lemma BeforeFirst(s: string, t: string, i: nat)
    requires Before(s, t, i) && i > 0
    ensures t != [] && s[0] == t[0]
  {
    assert s[0] == s[..i][0] && t[0] == t[..i][0];
  }

  lemma BeforeTail(s: string, t: string, i: nat)
    requires s != [] && t != [] && s[0] == t[0]
    ensures Before(s, t, i + 1) <==> Before(s[1..], t[1..], i)
  {
    if i + 1 <= |s| && i + 1 <= |t| {
      assert s[..i + 1] == [s[0]] + s[1..][..i] && t[..i + 1] == [t[0]] + t[1..][..i];
      assert s[1..][..i] == s[..i + 1][1..] && t[1..][..i] == t[..i + 1][1..];
    }
  }

  lemma {:induction false} LeqTotal(s: string, t: string)
    ensures Leq(s, t) || Leq(t, s)
  {
    if s != [] && t != [] { LeqTotal(s[1..], t[1..]); }
  }

  lemma {:induction false} LeqTransitive(s: string, t: string, u: string)
    requires Leq(s, t) && Leq(t, u)
    ensures Leq(s, u)
  {
    if s != [] && t != [] && u != [] && s[0] == t[0] == u[0] { LeqTransitive(s[1..], t[1..], u[1..]); }
  }

  lemma {:induction false} LeqAntisymmetric(s: string, t: string)
    requires Leq(s, t) && Leq(t, s)
    ensures s == t
  {
    if s != [] { LeqAntisymmetric(s[1..], t[1..]); }
  }

  predicate IsFirst(s: string, all: set<string>) {
    s in all && forall t :: t in all ==> Leq(s, t)
  }

  /** A finite non-empty set of strings has a first one. */
  lemma {:induction false} FirstExists(all: set<string>)
    requires all != {}
    ensures exists s :: IsFirst(s, all)
    decreases all
  {
    var x :| x in all;
    var rest := all - {x};
    assert all == rest + {x};
    if rest == {} {
      LeqTotal(x, x);
      assert IsFirst(x, all);
    } else {
      FirstExists(rest);
      var d :| IsFirst(d, rest);
      LeqTotal(d, x);
      LeqTotal(x, x);
      if Leq(d, x) {
        assert IsFirst(d, all);
      } else {
        forall t | t in all
          ensures Leq(x, t)
        {
          if t != x { LeqTransitive(x, d, t); }
        }
        assert IsFirst(x, all);
      }
    }
  }

  lemma FirstUnique(all: set<string>, s: string, t: string)
    requires IsFirst(s, all) && IsFirst(t, all)
    ensures s == t
  {
    LeqAntisymmetric(s, t);
  }
}
