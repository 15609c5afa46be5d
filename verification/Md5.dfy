/** websocket/md5: MD5 as a running computation, against sections 3.1 to 3.5 of
    RFC 1321. */
module Md5 {
  import opened Bytes
  import opened Blocks

  const T_MASK: Word := 0xFFFFFFFF

  // ------------------------------------------------------------- the standard

  datatype Regs = Regs(a: Word, b: Word, c: Word, d: Word)

  const INITIAL := Regs(0x67452301, 0xefcdab89, 0x98badcfe, 0x10325476)

  function RotateLeft(x: Word, n: nat): Word
    requires 1 <= n <= 31
  {
    (x << n) | (x >> (32 - n))
  }

  function F(x: Word, y: Word, z: Word): Word { (x & y) | (!x & z) }

  function G(x: Word, y: Word, z: Word): Word { (x & z) | (y & !z) }

  function H(x: Word, y: Word, z: Word): Word { x ^ y ^ z }

  function I(x: Word, y: Word, z: Word): Word { y ^ (x | !z) }

  function Aux(i: nat, x: Word, y: Word, z: Word): Word {
    if i < 16 then F(x, y, z) else if i < 32 then G(x, y, z) else if i < 48 then H(x, y, z) else I(x, y, z)
  }

  /** Which word operation i + 1 takes. */
  function K(i: nat): (k: nat)
    ensures k < 16
  {
    if i < 16 then i % 16 else if i < 32 then (5 * i + 1) % 16 else if i < 48 then (3 * i + 5) % 16 else (7 * i) % 16
  }

  /** How far it rotates. */
  function S(i: nat): (s: nat)
    ensures 1 <= s <= 31
  {
    var round := if i < 16 then 0 else if i < 32 then 1 else if i < 48 then 2 else 3;
    match (round, i % 4)
    case (0, 0) => 7
    case (0, 1) => 12
    case (0, 2) => 17
    case (0, _) => 22
    case (1, 0) => 5
    case (1, 1) => 9
    case (1, 2) => 14
    case (1, _) => 20
    case (2, 0) => 4
    case (2, 1) => 11
    case (2, 2) => 16
    case (2, _) => 23
    case (_, 0) => 6
    case (_, 1) => 10
    case (_, 2) => 15
    case (_, _) => 21
  }

  /** The integer part of 4294967296 times abs(sin(i + 1)). */
  function T(i: nat): Word {
    if i < 16 then Sines1(i) else if i < 32 then Sines2(i - 16) else if i < 48 then Sines3(i - 32) else Sines4(i - 48)
  }

  function Sines1(i: nat): Word {
    match i
    case 0 => 0xd76aa478
    case 1 => 0xe8c7b756
    case 2 => 0x242070db
    case 3 => 0xc1bdceee
    case 4 => 0xf57c0faf
    case 5 => 0x4787c62a
    case 6 => 0xa8304613
    case 7 => 0xfd469501
    case 8 => 0x698098d8
    case 9 => 0x8b44f7af
    case 10 => 0xffff5bb1
    case 11 => 0x895cd7be
    case 12 => 0x6b901122
    case 13 => 0xfd987193
    case 14 => 0xa679438e
    case _ => 0x49b40821
  }

  function Sines2(i: nat): Word {
    match i
    case 0 => 0xf61e2562
    case 1 => 0xc040b340
    case 2 => 0x265e5a51
    case 3 => 0xe9b6c7aa
    case 4 => 0xd62f105d
    case 5 => 0x02441453
    case 6 => 0xd8a1e681
    case 7 => 0xe7d3fbc8
    case 8 => 0x21e1cde6
    case 9 => 0xc33707d6
    case 10 => 0xf4d50d87
    case 11 => 0x455a14ed
    case 12 => 0xa9e3e905
    case 13 => 0xfcefa3f8
    case 14 => 0x676f02d9
    case _ => 0x8d2a4c8a
  }

  function Sines3(i: nat): Word {
    match i
    case 0 => 0xfffa3942
    case 1 => 0x8771f681
    case 2 => 0x6d9d6122
    case 3 => 0xfde5380c
    case 4 => 0xa4beea44
    case 5 => 0x4bdecfa9
    case 6 => 0xf6bb4b60
    case 7 => 0xbebfbc70
    case 8 => 0x289b7ec6
    case 9 => 0xeaa127fa
    case 10 => 0xd4ef3085
    case 11 => 0x04881d05
    case 12 => 0xd9d4d039
    case 13 => 0xe6db99e5
    case 14 => 0x1fa27cf8
    case _ => 0xc4ac5665
  }

  function Sines4(i: nat): Word {
    match i
    case 0 => 0xf4292244
    case 1 => 0x432aff97
    case 2 => 0xab9423a7
    case 3 => 0xfc93a039
    case 4 => 0x655b59c3
    case 5 => 0x8f0ccc92
    case 6 => 0xffeff47d
    case 7 => 0x85845dd1
    case 8 => 0x6fa87e4f
    case 9 => 0xfe2ce6e0
    case 10 => 0xa3014314
    case 11 => 0x4e0811a1
    case 12 => 0xf7537e82
    case 13 => 0xbd3af235
    case 14 => 0x2ad7d2bb
    case _ => 0xeb86d391
  }

  /** a = b + ((a + f(b,c,d) + X[k] + T) <<< s) */
  function Set(f: Word, a: Word, b: Word, x: Word, s: nat, t: Word): Word
    requires 1 <= s <= 31
  {
    Add(RotateLeft(Add(Add(Add(a, f), x), t), s), b)
  }

  /** One operation; the registers then move up by one place. */
  function Operation(r: Regs, x: seq<Word>, i: nat): Regs
    requires |x| == 16 && i < 64
  {
    Regs(r.d, Set(Aux(i, r.b, r.c, r.d), r.a, r.b, x[K(i)], S(i), T(i)), r.b, r.c)
  }

  function Operations(r: Regs, x: seq<Word>, n: nat): Regs
    requires |x| == 16 && n <= 64
  {
    if n == 0 then r else Operation(Operations(r, x, n - 1), x, n - 1)
  }

  /** Four bytes make a word, the first one lowest. */
  function Four(a: Byte, b: Byte, c: Byte, d: Byte): Word {
    Add(Add(Add(a as Word, (b as Word) << 8), (c as Word) << 16), (d as Word) << 24)
  }

  function WordsOf(b: Block): (x: seq<Word>)
    ensures |x| == 16
  {
    seq(16, t requires 0 <= t < 16 => Four(b[4 * t], b[4 * t + 1], b[4 * t + 2], b[4 * t + 3]))
  }

  function Compress(h: Regs, b: Block): Regs {
    var r := Operations(h, WordsOf(b), 64);
    Regs(Add(h.a, r.a), Add(h.b, r.b), Add(h.c, r.c), Add(h.d, r.d))
  }

  // ------------------------------------------------------ the code's own tables

  lemma FourMore(r: Regs, x: seq<Word>, n: nat)
    requires |x| == 16 && n + 4 <= 64
    ensures Operations(r, x, n + 4) == Operation(Operation(Operation(Operation(Operations(r, x, n), x, n), x, n + 1), x, n + 2), x, n + 3)
  {
    hide Operation;
    assert Operations(r, x, n + 1) == Operation(Operations(r, x, n), x, n);
    assert Operations(r, x, n + 2) == Operation(Operations(r, x, n + 1), x, n + 1);
    assert Operations(r, x, n + 3) == Operation(Operations(r, x, n + 2), x, n + 2);
  }

  lemma Places1()
    ensures K(0) == 0 && S(0) == 7
    ensures K(1) == 1 && S(1) == 12
    ensures K(2) == 2 && S(2) == 17
    ensures K(3) == 3 && S(3) == 22
    ensures K(4) == 4 && S(4) == 7
    ensures K(5) == 5 && S(5) == 12
    ensures K(6) == 6 && S(6) == 17
    ensures K(7) == 7 && S(7) == 22
    ensures K(8) == 8 && S(8) == 7
    ensures K(9) == 9 && S(9) == 12
    ensures K(10) == 10 && S(10) == 17
    ensures K(11) == 11 && S(11) == 22
    ensures K(12) == 12 && S(12) == 7
    ensures K(13) == 13 && S(13) == 12
    ensures K(14) == 14 && S(14) == 17
    ensures K(15) == 15 && S(15) == 22
  {
  }

  /** The constants written into round 1 are those of the standard. */
  lemma Table1()
    ensures T(0) == T_MASK ^ 0x28955b87 && K(0) == 0 && S(0) == 7
    ensures T(1) == T_MASK ^ 0x173848a9 && K(1) == 1 && S(1) == 12
    ensures T(2) == 0x242070db && K(2) == 2 && S(2) == 17
    ensures T(3) == T_MASK ^ 0x3e423111 && K(3) == 3 && S(3) == 22
    ensures T(4) == T_MASK ^ 0x0a83f050 && K(4) == 4 && S(4) == 7
    ensures T(5) == 0x4787c62a && K(5) == 5 && S(5) == 12
    ensures T(6) == T_MASK ^ 0x57cfb9ec && K(6) == 6 && S(6) == 17
    ensures T(7) == T_MASK ^ 0x02b96afe && K(7) == 7 && S(7) == 22
    ensures T(8) == 0x698098d8 && K(8) == 8 && S(8) == 7
    ensures T(9) == T_MASK ^ 0x74bb0850 && K(9) == 9 && S(9) == 12
    ensures T(10) == T_MASK ^ 0x0000a44e && K(10) == 10 && S(10) == 17
    ensures T(11) == T_MASK ^ 0x76a32841 && K(11) == 11 && S(11) == 22
    ensures T(12) == 0x6b901122 && K(12) == 12 && S(12) == 7
    ensures T(13) == T_MASK ^ 0x02678e6c && K(13) == 13 && S(13) == 12
    ensures T(14) == T_MASK ^ 0x5986bc71 && K(14) == 14 && S(14) == 17
    ensures T(15) == 0x49b40821 && K(15) == 15 && S(15) == 22
  {
    Places1();
    hide K, S;
  }

  /** The constants written into round 2 are those of the standard. */
  lemma Table2()
    ensures T(16) == T_MASK ^ 0x09e1da9d && K(16) == 1 && S(16) == 5
    ensures T(17) == T_MASK ^ 0x3fbf4cbf && K(17) == 6 && S(17) == 9
    ensures T(18) == 0x265e5a51 && K(18) == 11 && S(18) == 14
    ensures T(19) == T_MASK ^ 0x16493855 && K(19) == 0 && S(19) == 20
    ensures T(20) == T_MASK ^ 0x29d0efa2 && K(20) == 5 && S(20) == 5
    ensures T(21) == 0x02441453 && K(21) == 10 && S(21) == 9
    ensures T(22) == T_MASK ^ 0x275e197e && K(22) == 15 && S(22) == 14
    ensures T(23) == T_MASK ^ 0x182c0437 && K(23) == 4 && S(23) == 20
    ensures T(24) == 0x21e1cde6 && K(24) == 9 && S(24) == 5
    ensures T(25) == T_MASK ^ 0x3cc8f829 && K(25) == 14 && S(25) == 9
    ensures T(26) == T_MASK ^ 0x0b2af278 && K(26) == 3 && S(26) == 14
    ensures T(27) == 0x455a14ed && K(27) == 8 && S(27) == 20
    ensures T(28) == T_MASK ^ 0x561c16fa && K(28) == 13 && S(28) == 5
    ensures T(29) == T_MASK ^ 0x03105c07 && K(29) == 2 && S(29) == 9
    ensures T(30) == 0x676f02d9 && K(30) == 7 && S(30) == 14
    ensures T(31) == T_MASK ^ 0x72d5b375 && K(31) == 12 && S(31) == 20
  {
  }

  /** The constants written into round 3 are those of the standard. */
  lemma Table3()
    ensures T(32) == T_MASK ^ 0x0005c6bd && K(32) == 5 && S(32) == 4
    ensures T(33) == T_MASK ^ 0x788e097e && K(33) == 8 && S(33) == 11
    ensures T(34) == 0x6d9d6122 && K(34) == 11 && S(34) == 16
    ensures T(35) == T_MASK ^ 0x021ac7f3 && K(35) == 14 && S(35) == 23
    ensures T(36) == T_MASK ^ 0x5b4115bb && K(36) == 1 && S(36) == 4
    ensures T(37) == 0x4bdecfa9 && K(37) == 4 && S(37) == 11
    ensures T(38) == T_MASK ^ 0x0944b49f && K(38) == 7 && S(38) == 16
    ensures T(39) == T_MASK ^ 0x4140438f && K(39) == 10 && S(39) == 23
    ensures T(40) == 0x289b7ec6 && K(40) == 13 && S(40) == 4
    ensures T(41) == T_MASK ^ 0x155ed805 && K(41) == 0 && S(41) == 11
    ensures T(42) == T_MASK ^ 0x2b10cf7a && K(42) == 3 && S(42) == 16
    ensures T(43) == 0x04881d05 && K(43) == 6 && S(43) == 23
    ensures T(44) == T_MASK ^ 0x262b2fc6 && K(44) == 9 && S(44) == 4
    ensures T(45) == T_MASK ^ 0x1924661a && K(45) == 12 && S(45) == 11
    ensures T(46) == 0x1fa27cf8 && K(46) == 15 && S(46) == 16
    ensures T(47) == T_MASK ^ 0x3b53a99a && K(47) == 2 && S(47) == 23
  {
  }

  /** The constants written into round 4 are those of the standard. */
  lemma Table4()
    ensures T(48) == T_MASK ^ 0x0bd6ddbb && K(48) == 0 && S(48) == 6
    ensures T(49) == 0x432aff97 && K(49) == 7 && S(49) == 10
    ensures T(50) == T_MASK ^ 0x546bdc58 && K(50) == 14 && S(50) == 15
    ensures T(51) == T_MASK ^ 0x036c5fc6 && K(51) == 5 && S(51) == 21
    ensures T(52) == 0x655b59c3 && K(52) == 12 && S(52) == 6
    ensures T(53) == T_MASK ^ 0x70f3336d && K(53) == 3 && S(53) == 10
    ensures T(54) == T_MASK ^ 0x00100b82 && K(54) == 10 && S(54) == 15
    ensures T(55) == T_MASK ^ 0x7a7ba22e && K(55) == 1 && S(55) == 21
    ensures T(56) == 0x6fa87e4f && K(56) == 8 && S(56) == 6
    ensures T(57) == T_MASK ^ 0x01d3191f && K(57) == 15 && S(57) == 10
    ensures T(58) == T_MASK ^ 0x5cfebceb && K(58) == 6 && S(58) == 15
    ensures T(59) == 0x4e0811a1 && K(59) == 13 && S(59) == 21
    ensures T(60) == T_MASK ^ 0x08ac817d && K(60) == 4 && S(60) == 6
    ensures T(61) == T_MASK ^ 0x42c50dca && K(61) == 11 && S(61) == 10
    ensures T(62) == 0x2ad7d2bb && K(62) == 2 && S(62) == 15
    ensures T(63) == T_MASK ^ 0x14792c6e && K(63) == 9 && S(63) == 21
  {
  }

  // ------------------------------------------------------------ the four rounds

  method Round1(X: seq<Word>, ghost r: Regs, a0: Word, b0: Word, c0: Word, d0: Word) returns (a: Word, b: Word, c: Word, d: Word)
    requires |X| == 16 && Regs(a0, b0, c0, d0) == Operations(r, X, 0)
    ensures Regs(a, b, c, d) == Operations(r, X, 16)
  {
    Table1();
    hide T, K, S, Set, F, Operations;
    a, b, c, d := a0, b0, c0, d0;
    FourMore(r, X, 0);
    a := Set(F(b, c, d), a, b, X[0], 7, T_MASK ^ 0x28955b87);
    d := Set(F(a, b, c), d, a, X[1], 12, T_MASK ^ 0x173848a9);
    c := Set(F(d, a, b), c, d, X[2], 17, 0x242070db);
    b := Set(F(c, d, a), b, c, X[3], 22, T_MASK ^ 0x3e423111);
    FourMore(r, X, 4);
    a := Set(F(b, c, d), a, b, X[4], 7, T_MASK ^ 0x0a83f050);
    d := Set(F(a, b, c), d, a, X[5], 12, 0x4787c62a);
    c := Set(F(d, a, b), c, d, X[6], 17, T_MASK ^ 0x57cfb9ec);
    b := Set(F(c, d, a), b, c, X[7], 22, T_MASK ^ 0x02b96afe);
    FourMore(r, X, 8);
    a := Set(F(b, c, d), a, b, X[8], 7, 0x698098d8);
    d := Set(F(a, b, c), d, a, X[9], 12, T_MASK ^ 0x74bb0850);
    c := Set(F(d, a, b), c, d, X[10], 17, T_MASK ^ 0x0000a44e);
    b := Set(F(c, d, a), b, c, X[11], 22, T_MASK ^ 0x76a32841);
    FourMore(r, X, 12);
    a := Set(F(b, c, d), a, b, X[12], 7, 0x6b901122);
    d := Set(F(a, b, c), d, a, X[13], 12, T_MASK ^ 0x02678e6c);
    c := Set(F(d, a, b), c, d, X[14], 17, T_MASK ^ 0x5986bc71);
    b := Set(F(c, d, a), b, c, X[15], 22, 0x49b40821);
  }

  method Round2(X: seq<Word>, ghost r: Regs, a0: Word, b0: Word, c0: Word, d0: Word) returns (a: Word, b: Word, c: Word, d: Word)
    requires |X| == 16 && Regs(a0, b0, c0, d0) == Operations(r, X, 16)
    ensures Regs(a, b, c, d) == Operations(r, X, 32)
  {
    Table2();
    hide T, K, S, Set, G, Operations;
    a, b, c, d := a0, b0, c0, d0;
    FourMore(r, X, 16);
    a := Set(G(b, c, d), a, b, X[1], 5, T_MASK ^ 0x09e1da9d);
    d := Set(G(a, b, c), d, a, X[6], 9, T_MASK ^ 0x3fbf4cbf);
    c := Set(G(d, a, b), c, d, X[11], 14, 0x265e5a51);
    b := Set(G(c, d, a), b, c, X[0], 20, T_MASK ^ 0x16493855);
    FourMore(r, X, 20);
    a := Set(G(b, c, d), a, b, X[5], 5, T_MASK ^ 0x29d0efa2);
    d := Set(G(a, b, c), d, a, X[10], 9, 0x02441453);
    c := Set(G(d, a, b), c, d, X[15], 14, T_MASK ^ 0x275e197e);
    b := Set(G(c, d, a), b, c, X[4], 20, T_MASK ^ 0x182c0437);
    FourMore(r, X, 24);
    a := Set(G(b, c, d), a, b, X[9], 5, 0x21e1cde6);
    d := Set(G(a, b, c), d, a, X[14], 9, T_MASK ^ 0x3cc8f829);
    c := Set(G(d, a, b), c, d, X[3], 14, T_MASK ^ 0x0b2af278);
    b := Set(G(c, d, a), b, c, X[8], 20, 0x455a14ed);
    FourMore(r, X, 28);
    a := Set(G(b, c, d), a, b, X[13], 5, T_MASK ^ 0x561c16fa);
    d := Set(G(a, b, c), d, a, X[2], 9, T_MASK ^ 0x03105c07);
    c := Set(G(d, a, b), c, d, X[7], 14, 0x676f02d9);
    b := Set(G(c, d, a), b, c, X[12], 20, T_MASK ^ 0x72d5b375);
  }

  method Round3(X: seq<Word>, ghost r: Regs, a0: Word, b0: Word, c0: Word, d0: Word) returns (a: Word, b: Word, c: Word, d: Word)
    requires |X| == 16 && Regs(a0, b0, c0, d0) == Operations(r, X, 32)
    ensures Regs(a, b, c, d) == Operations(r, X, 48)
  {
    Table3();
    hide T, K, S, Set, H, Operations;
    a, b, c, d := a0, b0, c0, d0;
    FourMore(r, X, 32);
    a := Set(H(b, c, d), a, b, X[5], 4, T_MASK ^ 0x0005c6bd);
    d := Set(H(a, b, c), d, a, X[8], 11, T_MASK ^ 0x788e097e);
    c := Set(H(d, a, b), c, d, X[11], 16, 0x6d9d6122);
    b := Set(H(c, d, a), b, c, X[14], 23, T_MASK ^ 0x021ac7f3);
    FourMore(r, X, 36);
    a := Set(H(b, c, d), a, b, X[1], 4, T_MASK ^ 0x5b4115bb);
    d := Set(H(a, b, c), d, a, X[4], 11, 0x4bdecfa9);
    c := Set(H(d, a, b), c, d, X[7], 16, T_MASK ^ 0x0944b49f);
    b := Set(H(c, d, a), b, c, X[10], 23, T_MASK ^ 0x4140438f);
    FourMore(r, X, 40);
    a := Set(H(b, c, d), a, b, X[13], 4, 0x289b7ec6);
    d := Set(H(a, b, c), d, a, X[0], 11, T_MASK ^ 0x155ed805);
    c := Set(H(d, a, b), c, d, X[3], 16, T_MASK ^ 0x2b10cf7a);
    b := Set(H(c, d, a), b, c, X[6], 23, 0x04881d05);
    FourMore(r, X, 44);
    a := Set(H(b, c, d), a, b, X[9], 4, T_MASK ^ 0x262b2fc6);
    d := Set(H(a, b, c), d, a, X[12], 11, T_MASK ^ 0x1924661a);
    c := Set(H(d, a, b), c, d, X[15], 16, 0x1fa27cf8);
    b := Set(H(c, d, a), b, c, X[2], 23, T_MASK ^ 0x3b53a99a);
  }

  method Round4(X: seq<Word>, ghost r: Regs, a0: Word, b0: Word, c0: Word, d0: Word) returns (a: Word, b: Word, c: Word, d: Word)
    requires |X| == 16 && Regs(a0, b0, c0, d0) == Operations(r, X, 48)
    ensures Regs(a, b, c, d) == Operations(r, X, 64)
  {
    Table4();
    hide T, K, S, Set, I, Operations;
    a, b, c, d := a0, b0, c0, d0;
    FourMore(r, X, 48);
    a := Set(I(b, c, d), a, b, X[0], 6, T_MASK ^ 0x0bd6ddbb);
    d := Set(I(a, b, c), d, a, X[7], 10, 0x432aff97);
    c := Set(I(d, a, b), c, d, X[14], 15, T_MASK ^ 0x546bdc58);
    b := Set(I(c, d, a), b, c, X[5], 21, T_MASK ^ 0x036c5fc6);
    FourMore(r, X, 52);
    a := Set(I(b, c, d), a, b, X[12], 6, 0x655b59c3);
    d := Set(I(a, b, c), d, a, X[3], 10, T_MASK ^ 0x70f3336d);
    c := Set(I(d, a, b), c, d, X[10], 15, T_MASK ^ 0x00100b82);
    b := Set(I(c, d, a), b, c, X[1], 21, T_MASK ^ 0x7a7ba22e);
    FourMore(r, X, 56);
    a := Set(I(b, c, d), a, b, X[8], 6, 0x6fa87e4f);
    d := Set(I(a, b, c), d, a, X[15], 10, T_MASK ^ 0x01d3191f);
    c := Set(I(d, a, b), c, d, X[6], 15, T_MASK ^ 0x5cfebceb);
    b := Set(I(c, d, a), b, c, X[13], 21, 0x4e0811a1);
    FourMore(r, X, 60);
    a := Set(I(b, c, d), a, b, X[4], 6, T_MASK ^ 0x08ac817d);
    d := Set(I(a, b, c), d, a, X[11], 10, T_MASK ^ 0x42c50dca);
    c := Set(I(d, a, b), c, d, X[2], 15, 0x2ad7d2bb);
    b := Set(I(c, d, a), b, c, X[9], 21, T_MASK ^ 0x14792c6e);
  }

  lemma NoOperations(r: Regs, x: seq<Word>)
    requires |x| == 16
    ensures Operations(r, x, 0) == r
  {
  }

  // ------------------------------------------------------------- whole messages

  function Fold(h: Regs, m: seq<Byte>): Regs
    requires |m| % 64 == 0
  {
    FoldBlocks(Compress, h, m)
  }

  lemma FoldMore(h: Regs, m: seq<Byte>, b: Block)
    requires |m| % 64 == 0
    ensures Fold(h, m + b) == Compress(Fold(h, m), b)
  {
    hide Compress;
    FoldOneMore(Compress, h, m, b);
  }

  lemma FoldNothing(h: Regs)
    ensures Fold(h, []) == h
  {
    hide Compress;
  }

  /** The low k bytes of a number, least significant first. */
  function LittleEndian(n: nat, k: nat): (s: seq<Byte>)
    ensures |s| == k
  {
    if k == 0 then [] else [Low(n)] + LittleEndian(n / 256, k - 1)
  }

  /** The low 64 bits of the length in bits. */
  function Length(m: seq<Byte>): (s: seq<Byte>)
    ensures |s| == 8
  {
    LittleEndian(8 * |m| % TWO64, 8)
  }

  /** The length's bytes are those of the big-endian number, the other way round. */
  lemma LengthReversed(m: seq<Byte>, i: nat)
    requires i < 8
    ensures Length(m)[i] == BigEndian(8 * |m| % TWO64, 8)[7 - i]
  {
    hide LittleEndian, BigEndian, Low;
    LittleEndianAt(8 * |m| % TWO64, 8, i);
    BigEndianAt(8 * |m| % TWO64, 8, 7 - i);
  }

  /** A one bit, zeros, and the length. */
  function Padded(m: seq<Byte>): (p: seq<Byte>)
    ensures |p| % 64 == 0
  {
    PadLength(|m|);
    m + [0x80] + Zeros(PadZeros(|m|)) + Length(m)
  }

  function Digest(m: seq<Byte>): Regs {
    Fold(INITIAL, Padded(m))
  }

  function Nth(r: Regs, i: nat): Word {
    if i == 0 then r.a else if i == 1 then r.b else if i == 2 then r.c else r.d
  }

  /** The digest: the words' bytes, low-order first. */
  function Output(r: Regs): seq<Byte> {
    seq(16, i requires 0 <= i < 16 => ByteOf(Nth(r, i / 4), i % 4))
  }

  lemma BytesMakeWord(w: Word)
    ensures Four(ByteOf(w, 0), ByteOf(w, 1), ByteOf(w, 2), ByteOf(w, 3)) == w
  {
  }

  // ------------------------------------------------------------------ counting

  /** count[0] and count[1] after n more bytes. */
  function Count0(count0: nat, n: nat): nat {
    (count0 + 8 * n % TWO32) % TWO32
  }

  function Count1(count0: nat, count1: nat, n: nat): nat {
    var c := (count1 + n / 0x2000_0000) % TWO32;
    if Count0(count0, n) < 8 * n % TWO32 then (c + 1) % TWO32 else c
  }

  /** The two words hold the sum modulo 2^64, carry included. */
  lemma CountIsSum(count0: nat, count1: nat, n: nat)
    requires count0 < TWO32 && count1 < TWO32
    ensures Count1(count0, count1, n) * TWO32 + Count0(count0, n) == (count1 * TWO32 + count0 + 8 * n) % TWO64
  {
    var low, high := 8 * n % TWO32, n / 0x2000_0000;
    assert 8 * n == high * TWO32 + low;
    var sum := count0 + low;
    var carry := if sum >= TWO32 then 1 else 0;
    assert Count0(count0, n) == sum - carry * TWO32;
    assert Count1(count0, count1, n) == (count1 + high + carry) % TWO32;
    Wrapped(count1 + high + carry, sum - carry * TWO32);
  }

  lemma Wrapped(high: nat, low: nat)
    requires low < TWO32
    ensures (high * TWO32 + low) % TWO64 == (high % TWO32) * TWO32 + low
  {
    var q := high / TWO32;
    assert high * TWO32 + low == q * TWO64 + ((high % TWO32) * TWO32 + low);
  }

  lemma SumOfLengths(c: nat, m: nat, n: nat)
    requires c == 8 * m % TWO64
    ensures (c + 8 * n) % TWO64 == 8 * (m + n) % TWO64
  {
    var q := 8 * m / TWO64;
    assert 8 * (m + n) == q * TWO64 + (c + 8 * n);
  }

  /** The offset in the block, read off the count. */
  lemma OffsetIs(count0: nat, count1: nat, m: nat)
    requires count1 * TWO32 + count0 == 8 * m % TWO64
    ensures count0 / 8 % 64 == m % 64
  {
    var q := 8 * m / TWO64;
    var k := m - q * 0x2000_0000_0000_0000 - count1 * 0x2000_0000;
    assert count0 == 8 * k by {
      assert 8 * m == q * TWO64 + count1 * TWO32 + count0;
    }
    var t := q * 0x80_0000_0000_0000 + count1 * 0x80_0000;
    assert m == k + 64 * t;
    ModuloStep(k, t);
  }

  lemma ModuloStep(k: int, t: int)
    ensures (k + 64 * t) % 64 == k % 64
  {
  }

  /** The padding md5_finish asks for always reaches 56 bytes modulo 64. */
  lemma PaddingReaches(count0: nat, m: nat)
    requires count0 / 8 % 64 == m % 64
    ensures (55 - count0 / 8) % 64 == PadZeros(m)
    ensures (m + (55 - count0 / 8) % 64 + 1) % 64 == 56
  {
  }

  lemma {:induction false} LittleEndianAt(n: nat, k: nat, i: nat)
    requires i < k
    ensures LittleEndian(n, k)[i] == Low(Shr(n, i))
  {
    hide Low;
    if i > 0 {
      LittleEndianAt(n / 256, k - 1, i - 1);
    }
  }

  /** The bytes of a number in two halves. */
  lemma {:induction false} LittleEndianSplit(low: nat, high: nat, k: nat, j: nat)
    requires low < Pow256(k)
    ensures LittleEndian(high * Pow256(k) + low, k + j) == LittleEndian(low, k) + LittleEndian(high, j)
    decreases k
  {
    if k == 0 {
      assert [] + LittleEndian(high, j) == LittleEndian(high, j);
    } else {
      var n, p := high * Pow256(k) + low, Pow256(k - 1);
      DropByte(high, p, low);
      LowSame(n, low);
      hide Low;
      LittleEndianSplit(low / 256, high, k - 1, j);
      assert [Low(low)] + (LittleEndian(low / 256, k - 1) + LittleEndian(high, j)) == ([Low(low)] + LittleEndian(low / 256, k - 1)) + LittleEndian(high, j);
    }
  }

  // ------------------------------------------------------------------ the class

  lemma NextPart(m: seq<Byte>, data: seq<Byte>, p: nat)
    requires p + 64 <= |data|
    ensures m + data[..p + 64] == (m + data[..p]) + data[p..p + 64]
  {
  }

  lemma LastPart(m: seq<Byte>, data: seq<Byte>, p: nat)
    requires p <= |data|
    ensures m + data == (m + data[..p]) + data[p..]
  {
  }

  class Md5State {
    var count0: nat
    var count1: nat
    const abcd: array<Word>
    const buf: array<Byte>

    /** The message appended so far. */
    ghost var message: seq<Byte>

    ghost predicate Shape() {
      abcd.Length == 4 && buf.Length == 64
    }

    function Words(): Regs
      requires abcd.Length == 4
      reads abcd
    {
      Regs(abcd[0], abcd[1], abcd[2], abcd[3])
    }

    /** The count is 8 times the length, modulo 2^64. */
    ghost predicate Counting()
      reads this
    {
      count0 < TWO32 && count1 < TWO32 && count1 * TWO32 + count0 == 8 * |message| % TWO64
    }

    /** The whole blocks are folded into abcd, the rest waits in buf. */
    ghost predicate Absorbing(m: seq<Byte>)
      requires Shape()
      reads abcd, buf
    {
      var i := |m| % 64;
      buf[..i] == m[|m| - i..] && Words() == Fold(INITIAL, m[..|m| - i])
    }

    ghost predicate Valid()
      reads this, abcd, buf
    {
      Shape() && Counting() && Absorbing(message)
    }

    /** md5_init */
    constructor ()
      ensures Valid() && message == [] && fresh(abcd) && fresh(buf)
    {
      count0, count1 := 0, 0;
      abcd := new Word[4];
      buf := new Byte[64];
      message := [];
      new;
      FoldNothing(INITIAL);
      hide Fold, Compress;
      abcd[0] := 0x67452301;
      abcd[1] := T_MASK ^ 0x10325476;
      abcd[2] := T_MASK ^ 0x67452301;
      abcd[3] := 0x10325476;
      assert message[..0] == [] && message[0..] == [] && buf[..0] == [];
    }

    /** md5_process */
    method Process(data: Block)
      requires Shape()
      modifies abcd
      ensures Words() == Compress(old(Words()), data)
    {
      var X := ReadWords(data);
      hide Operation, Operations, Add, WordsOf;
      ghost var r := Words();
      assert Operations(r, X, 0) == r by { NoOperations(r, X); }
      var a, b, c, d := Round1(X, r, abcd[0], abcd[1], abcd[2], abcd[3]);
      a, b, c, d := Round2(X, r, a, b, c, d);
      a, b, c, d := Round3(X, r, a, b, c, d);
      a, b, c, d := Round4(X, r, a, b, c, d);
      AddWords(a, b, c, d);
    }

    method AddWords(a: Word, b: Word, c: Word, d: Word)
      requires Shape()
      modifies abcd
      ensures Words() == (var h := old(Words()); Regs(Add(h.a, a), Add(h.b, b), Add(h.c, c), Add(h.d, d)))
    {
      hide Add;
      abcd[0] := Add(abcd[0], a);
      abcd[1] := Add(abcd[1], b);
      abcd[2] := Add(abcd[2], c);
      abcd[3] := Add(abcd[3], d);
    }

    /** The sixteen words of a block. */
    method ReadWords(data: Block) returns (X: seq<Word>)
      ensures X == WordsOf(data)
    {
      hide Four;
      X := [];
      for i := 0 to 16
        invariant |X| == i && X == WordsOf(data)[..i]
      {
        X := X + [Four(data[4 * i], data[4 * i + 1], data[4 * i + 2], data[4 * i + 3])];
      }
    }

    /** memcpy(buf + offset, ...) */
    method Fill(offset: nat, data: seq<Byte>)
      requires Shape() && offset + |data| <= 64
      modifies buf
      ensures buf[..offset + |data|] == old(buf[..offset]) + data
    {
      for k := 0 to |data|
        invariant buf[..offset + k] == old(buf[..offset]) + data[..k]
      {
        buf[offset + k] := data[k];
        assert buf[..offset + k + 1] == buf[..offset + k] + [data[k]];
      }
      assert data[..|data|] == data;
    }

    /** md5_append: the rest of a begun block, whole blocks, and what is left. */
    method Append(data: seq<Byte>)
      requires Valid() && |message| % 64 + |data| < TWO64
      modifies this, abcd, buf
      ensures Valid() && message == old(message) + data
    {
      hide Fold, Compress, Md5State.Counting;
      var nbytes := |data|;
      ghost var m := message;
      var offset := Offset();
      if nbytes <= 0 {
        assert message + data == message;
        return;
      }
      AddCount(data);
      AbsorbData(m, data, offset);
    }

    method AbsorbData(ghost m: seq<Byte>, data: seq<Byte>, offset: nat)
      requires Shape() && Absorbing(m) && data != [] && offset == |m| % 64
      modifies abcd, buf
      ensures Absorbing(m + data)
    {
      hide Fold, Compress;
      var p := 0;
      if offset > 0 {
        p := FirstBlock(m, data, offset);
        if offset + p < 64 {
          assert data[..p] == data;
          return;
        }
      } else {
        assert m + data[..0] == m;
      }
      WholeBlocks(m, data, p);
    }

    /** (count[0] >> 3) & 63 */
    method Offset() returns (offset: nat)
      requires Counting()
      ensures offset == |message| % 64
    {
      offset := count0 / 8 % 64;
      OffsetIs(count0, count1, |message|);
    }

    method AddCount(data: seq<Byte>)
      requires Counting()
      modifies this`count0, this`count1, this`message
      ensures Counting() && message == old(message) + data
    {
      var nbytes := |data|;
      var nbits := 8 * nbytes % TWO32;
      CountIsSum(count0, count1, nbytes);
      SumOfLengths(count1 * TWO32 + count0, |message|, nbytes);
      count1 := (count1 + nbytes / 0x2000_0000) % TWO32;
      count0 := (count0 + nbits) % TWO32;
      if count0 < nbits {
        count1 := (count1 + 1) % TWO32;
      }
      message := message + data;
    }

    /** The first part of the data completes, or at least adds to, the block begun. */
    method FirstBlock(ghost m: seq<Byte>, data: seq<Byte>, offset: nat) returns (copy: nat)
      requires Shape() && Absorbing(m) && data != [] && 0 < offset == |m| % 64
      modifies abcd, buf
      ensures copy <= |data| && (offset + copy < 64 ==> copy == |data|) && offset + copy <= 64
      ensures Absorbing(m + data[..copy])
    {
      hide Fold, Compress;
      copy := if offset + |data| > 64 then 64 - offset else |data|;
      ghost var whole, m' := m[..|m| - offset], m + data[..copy];
      Fill(offset, data[..copy]);
      assert m' == whole + (m[|m| - offset..] + data[..copy]);
      if offset + copy < 64 {
        Tail(m', whole, m[|m| - offset..] + data[..copy]);
        return;
      }
      assert buf[..64] == buf[..];
      CompleteBlock(m', whole);
    }

    /** The block begun is full: it is folded in, and nothing waits. */
    method CompleteBlock(ghost m: seq<Byte>, ghost whole: seq<Byte>)
      requires Shape() && |whole| % 64 == 0 && Words() == Fold(INITIAL, whole) && m == whole + buf[..]
      modifies abcd
      ensures Absorbing(m)
    {
      hide Fold, Compress;
      FoldMore(INITIAL, whole, buf[..]);
      Process(buf[..]);
      Tail(m, m, []);
      assert buf[..0] == [];
    }

    /** Full blocks straight from the data, then a final partial block. */
    method WholeBlocks(ghost m: seq<Byte>, data: seq<Byte>, from: nat)
      requires Shape() && from <= |data| && (|m| + from) % 64 == 0 && Absorbing(m + data[..from])
      modifies abcd, buf
      ensures Absorbing(m + data)
    {
      hide Fold, Compress;
      var p, left := from, |data| - from;
      Tail(m + data[..p], m + data[..p], []);
      while left >= 64
        invariant 0 <= p && 0 <= left && p + left == |data| && (|m| + p) % 64 == 0
        invariant Words() == Fold(INITIAL, m + data[..p])
        decreases left
      {
        NextPart(m, data, p);
        FoldMore(INITIAL, m + data[..p], data[p..p + 64]);
        Process(data[p..p + 64]);
        p, left := p + 64, left - 64;
      }
      LastPart(m, data, p);
      Fill(0, data[p..]);
      Tail(m + data, m + data[..p], data[p..]);
    }

    /** md5_finish */
    method Finish() returns (digest: seq<Byte>)
      requires Valid()
      modifies this, abcd, buf
      ensures digest == Output(Digest(old(message)))
      ensures Valid()
    {
      hide Fold, Compress, Output;
      ghost var m := message;
      var data := SaveLength();
      Pad();
      Append(data);
      assert message == Padded(m);
      assert message[..|message|] == message;
      digest := PutWords();
    }

    /** Padding up to 56 bytes modulo 64. */
    method Pad()
      requires Valid()
      modifies this, abcd, buf
      ensures Valid() && message == old(message) + [0x80] + Zeros(PadZeros(|old(message)|))
    {
      hide Fold, Compress;
      OffsetIs(count0, count1, |message|);
      PaddingReaches(count0, |message|);
      var pad := [0x80] + Zeros(63);
      var k := (55 - count0 / 8) % 64 + 1;
      assert pad[..k] == [0x80] + Zeros(k - 1);
      assert message + ([0x80] + Zeros(k - 1)) == message + [0x80] + Zeros(k - 1);
      Append(pad[..k]);
    }

    method PutWords() returns (digest: seq<Byte>)
      requires Shape()
      ensures digest == Output(Words())
    {
      hide ByteOf;
      digest := [];
      for i := 0 to 16
        invariant digest == Output(Words())[..i]
      {
        digest := digest + [ByteOf(abcd[i / 4], i % 4)];
      }
    }

    lemma CountParts()
      requires Counting()
      ensures Length(message) == LittleEndian(count0, 4) + LittleEndian(count1, 4)
    {
      LengthIs(count0, count1, message);
    }

    /** The eight bytes of the count, before padding. */
    method SaveLength() returns (data: seq<Byte>)
      requires Counting()
      ensures data == Length(message)
    {
      hide Length, LittleEndian, Low, Shr, Md5State.Counting;
      data := [];
      CountParts();
      ghost var all := LittleEndian(count0, 4) + LittleEndian(count1, 4);
      for i := 0 to 8
        invariant data == all[..i]
      {
        CountByte(count0, count1, i);
        data := data + [Low(Shr(if i / 4 == 0 then count0 else count1, i % 4))];
      }
      assert all[..8] == all;
    }
  }

  lemma {:induction false} LengthIs(count0: nat, count1: nat, m: seq<Byte>)
    requires count0 < TWO32 && count1 * TWO32 + count0 == 8 * |m| % TWO64
    ensures Length(m) == LittleEndian(count0, 4) + LittleEndian(count1, 4)
  {
    assert Pow256(4) == TWO32;
    LittleEndianSplit(count0, count1, 4, 4);
  }

  lemma CountByte(count0: nat, count1: nat, i: nat)
    requires i < 8
    ensures (LittleEndian(count0, 4) + LittleEndian(count1, 4))[i] == Low(Shr(if i / 4 == 0 then count0 else count1, i % 4))
  {
    hide LittleEndian, Low, Shr;
    if i < 4 {
      LittleEndianAt(count0, 4, i);
    } else {
      LittleEndianAt(count1, 4, i - 4);
    }
  }

  /** Where a message splits into whole blocks and a tail. */
  lemma Tail(m: seq<Byte>, whole: seq<Byte>, tail: seq<Byte>)
    requires m == whole + tail && |whole| % 64 == 0 && |tail| < 64
    ensures |m| % 64 == |tail| && m[..|m| - |tail|] == whole && m[|m| - |tail|..] == tail
  {
  }
}
