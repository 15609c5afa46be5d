/** An answer of MD5 that the standard gives, worked out operation by operation. */
module Md5Answers {
  import opened Bytes
  import opened Blocks
  import opened Md5

  /** After i operations the registers are s; the next one takes the word w. */
  lemma Next(r: Regs, x: seq<Word>, i: nat, s: Regs, w: Word, n: nat, t: Word)
    requires |x| == 16 && i < 64 && Operations(r, x, i) == s
    requires x[K(i)] == w && 1 <= n <= 31 && S(i) == n && T(i) == t
    ensures Operations(r, x, i + 1) == Regs(s.d, Set(Aux(i, s.b, s.c, s.d), s.a, s.b, w, n, t), s.b, s.c)
  {
    hide K, S, T, Aux, Set;
  }

  /** The words of the one block of the padded message "abc". */
  predicate AbcWords(x: seq<Word>)
    requires |x| == 16
  {
    x[0] == 0x80636261 && x[14] == 24 && forall k :: 0 <= k < 16 && k != 0 && k != 14 ==> x[k] == 0
  }

  lemma AbcRound1(r: Regs, x: seq<Word>)
    requires |x| == 16 && AbcWords(x) && Operations(r, x, 0) == Regs(0x67452301, 0xEFCDAB89, 0x98BADCFE, 0x10325476)
    ensures Operations(r, x, 16) == Regs(0xDDA9B9A6, 0x72AFF2E0, 0xE396856B, 0xA1051895)
  {
    Table1();
    hide Operations, K, S, T;
    Next(r, x, 0, Regs(0x67452301, 0xEFCDAB89, 0x98BADCFE, 0x10325476), 0x80636261, 7, 0xD76AA478);
    Next(r, x, 1, Regs(0x10325476, 0xD6D117B4, 0xEFCDAB89, 0x98BADCFE), 0x00000000, 12, 0xE8C7B756);
    Next(r, x, 2, Regs(0x98BADCFE, 0x344A8432, 0xD6D117B4, 0xEFCDAB89), 0x00000000, 17, 0x242070DB);
    Next(r, x, 3, Regs(0xEFCDAB89, 0x2F6FBD72, 0x344A8432, 0xD6D117B4), 0x00000000, 22, 0xC1BDCEEE);
    Next(r, x, 4, Regs(0xD6D117B4, 0x7AD956F2, 0x2F6FBD72, 0x344A8432), 0x00000000, 7, 0xF57C0FAF);
    Next(r, x, 5, Regs(0x344A8432, 0xC73741EF, 0x7AD956F2, 0x2F6FBD72), 0x00000000, 12, 0x4787C62A);
    Next(r, x, 6, Regs(0x2F6FBD72, 0x8BAC3051, 0xC73741EF, 0x7AD956F2), 0x00000000, 17, 0xA8304613);
    Next(r, x, 7, Regs(0x7AD956F2, 0x207DC67B, 0x8BAC3051, 0xC73741EF), 0x00000000, 22, 0xFD469501);
    Next(r, x, 8, Regs(0xC73741EF, 0x928D99F6, 0x207DC67B, 0x8BAC3051), 0x00000000, 7, 0x698098D8);
    Next(r, x, 9, Regs(0x8BAC3051, 0x854B3712, 0x928D99F6, 0x207DC67B), 0x00000000, 12, 0x8B44F7AF);
    Next(r, x, 10, Regs(0x207DC67B, 0x74E2F284, 0x854B3712, 0x928D99F6), 0x00000000, 17, 0xFFFF5BB1);
    Next(r, x, 11, Regs(0x928D99F6, 0x3020401C, 0x74E2F284, 0x854B3712), 0x00000000, 22, 0x895CD7BE);
    Next(r, x, 12, Regs(0x854B3712, 0x5ED49596, 0x3020401C, 0x74E2F284), 0x00000000, 7, 0x6B901122);
    Next(r, x, 13, Regs(0x74E2F284, 0xDDA9B9A6, 0x5ED49596, 0x3020401C), 0x00000000, 12, 0xFD987193);
    Next(r, x, 14, Regs(0x3020401C, 0xA1051895, 0xDDA9B9A6, 0x5ED49596), 0x00000018, 17, 0xA679438E);
    Next(r, x, 15, Regs(0x5ED49596, 0xE396856B, 0xA1051895, 0xDDA9B9A6), 0x00000000, 22, 0x49B40821);
  }

  lemma AbcRound2(r: Regs, x: seq<Word>)
    requires |x| == 16 && AbcWords(x) && Operations(r, x, 16) == Regs(0xDDA9B9A6, 0x72AFF2E0, 0xE396856B, 0xA1051895)
    ensures Operations(r, x, 32) == Regs(0x790A77FB, 0x726342D3, 0xA62884AA, 0x9F47E4F8)
  {
    Table2();
    hide Operations, K, S, T;
    Next(r, x, 16, Regs(0xDDA9B9A6, 0x72AFF2E0, 0xE396856B, 0xA1051895), 0x00000000, 5, 0xF61E2562);
    Next(r, x, 17, Regs(0xA1051895, 0x3E9E9126, 0x72AFF2E0, 0xE396856B), 0x00000000, 9, 0xC040B340);
    Next(r, x, 18, Regs(0xE396856B, 0x4A1D804E, 0x3E9E9126, 0x72AFF2E0), 0x00000000, 14, 0x265E5A51);
    Next(r, x, 19, Regs(0x72AFF2E0, 0xE25E1652, 0x4A1D804E, 0x3E9E9126), 0x80636261, 20, 0xE9B6C7AA);
    Next(r, x, 20, Regs(0x3E9E9126, 0xB5B204E4, 0xE25E1652, 0x4A1D804E), 0x00000000, 5, 0xD62F105D);
    Next(r, x, 21, Regs(0x4A1D804E, 0x59A8FFDA, 0xB5B204E4, 0xE25E1652), 0x00000000, 9, 0x02441453);
    Next(r, x, 22, Regs(0xE25E1652, 0x6D002F1E, 0x59A8FFDA, 0xB5B204E4), 0x00000000, 14, 0xD8A1E681);
    Next(r, x, 23, Regs(0xB5B204E4, 0xABFC7920, 0x6D002F1E, 0x59A8FFDA), 0x00000000, 20, 0xE7D3FBC8);
    Next(r, x, 24, Regs(0x59A8FFDA, 0x47092C07, 0xABFC7920, 0x6D002F1E), 0x00000000, 5, 0x21E1CDE6);
    Next(r, x, 25, Regs(0x6D002F1E, 0xB7F268CF, 0x47092C07, 0xABFC7920), 0x00000018, 9, 0xC33707D6);
    Next(r, x, 26, Regs(0xABFC7920, 0x09388EFF, 0xB7F268CF, 0x47092C07), 0x00000000, 14, 0xF4D50D87);
    Next(r, x, 27, Regs(0x47092C07, 0xFE1623B1, 0x09388EFF, 0xB7F268CF), 0x00000000, 20, 0x455A14ED);
    Next(r, x, 28, Regs(0xB7F268CF, 0x786ACB8F, 0xFE1623B1, 0x09388EFF), 0x00000000, 5, 0xA9E3E905);
    Next(r, x, 29, Regs(0x09388EFF, 0x790A77FB, 0x786ACB8F, 0xFE1623B1), 0x00000000, 9, 0xFCEFA3F8);
    Next(r, x, 30, Regs(0xFE1623B1, 0x9F47E4F8, 0x790A77FB, 0x786ACB8F), 0x00000000, 14, 0x676F02D9);
    Next(r, x, 31, Regs(0x786ACB8F, 0xA62884AA, 0x9F47E4F8, 0x790A77FB), 0x00000000, 20, 0x8D2A4C8A);
  }

  lemma AbcRound3(r: Regs, x: seq<Word>)
    requires |x| == 16 && AbcWords(x) && Operations(r, x, 32) == Regs(0x790A77FB, 0x726342D3, 0xA62884AA, 0x9F47E4F8)
    ensures Operations(r, x, 48) == Regs(0x7F2E507B, 0x7BEB9700, 0x8FAE6399, 0x99D9679D)
  {
    Table3();
    hide Operations, K, S, T;
    Next(r, x, 32, Regs(0x790A77FB, 0x726342D3, 0xA62884AA, 0x9F47E4F8), 0x00000000, 4, 0xFFFA3942);
    Next(r, x, 33, Regs(0x9F47E4F8, 0xB3707EBF, 0x726342D3, 0xA62884AA), 0x00000000, 11, 0x8771F681);
    Next(r, x, 34, Regs(0xA62884AA, 0x60127B2E, 0xB3707EBF, 0x726342D3), 0x00000000, 16, 0x6D9D6122);
    Next(r, x, 35, Regs(0x726342D3, 0x8D212FF5, 0x60127B2E, 0xB3707EBF), 0x00000018, 23, 0xFDE5380C);
    Next(r, x, 36, Regs(0xB3707EBF, 0x3B0875C7, 0x8D212FF5, 0x60127B2E), 0x00000000, 4, 0xA4BEEA44);
    Next(r, x, 37, Regs(0x60127B2E, 0x21B117B9, 0x3B0875C7, 0x8D212FF5), 0x00000000, 11, 0x4BDECFA9);
    Next(r, x, 38, Regs(0x8D212FF5, 0x6E7429D5, 0x21B117B9, 0x3B0875C7), 0x00000000, 16, 0xF6BB4B60);
    Next(r, x, 39, Regs(0x3B0875C7, 0x3575227E, 0x6E7429D5, 0x21B117B9), 0x00000000, 23, 0xBEBFBC70);
    Next(r, x, 40, Regs(0x21B117B9, 0x5A2F5EA5, 0x3575227E, 0x6E7429D5), 0x00000000, 4, 0x289B7EC6);
    Next(r, x, 41, Regs(0x6E7429D5, 0x11DE1779, 0x5A2F5EA5, 0x3575227E), 0x80636261, 11, 0xEAA127FA);
    Next(r, x, 42, Regs(0x3575227E, 0xFADCAA38, 0x11DE1779, 0x5A2F5EA5), 0x00000000, 16, 0xD4EF3085);
    Next(r, x, 43, Regs(0x5A2F5EA5, 0x31C465CA, 0xFADCAA38, 0x11DE1779), 0x00000000, 23, 0x04881D05);
    Next(r, x, 44, Regs(0x11DE1779, 0x4C6124F4, 0x31C465CA, 0xFADCAA38), 0x00000000, 4, 0xD9D4D039);
    Next(r, x, 45, Regs(0xFADCAA38, 0x7F2E507B, 0x4C6124F4, 0x31C465CA), 0x00000000, 11, 0xE6DB99E5);
    Next(r, x, 46, Regs(0x31C465CA, 0x99D9679D, 0x7F2E507B, 0x4C6124F4), 0x00000000, 16, 0x1FA27CF8);
    Next(r, x, 47, Regs(0x4C6124F4, 0x8FAE6399, 0x99D9679D, 0x7F2E507B), 0x00000000, 23, 0xC4AC5665);
  }

  lemma AbcRound4(r: Regs, x: seq<Word>)
    requires |x| == 16 && AbcWords(x) && Operations(r, x, 48) == Regs(0x7F2E507B, 0x7BEB9700, 0x8FAE6399, 0x99D9679D)
    ensures Operations(r, x, 64) == Regs(0x310ADE8F, 0xC08226B3, 0xE484B9D8, 0x624D8CB2)
  {
    Table4();
    hide Operations, K, S, T;
    Next(r, x, 48, Regs(0x7F2E507B, 0x7BEB9700, 0x8FAE6399, 0x99D9679D), 0x80636261, 6, 0xF4292244);
    Next(r, x, 49, Regs(0x99D9679D, 0x7B201DF8, 0x7BEB9700, 0x8FAE6399), 0x00000000, 10, 0x432AFF97);
    Next(r, x, 50, Regs(0x8FAE6399, 0xF4E8E96E, 0x7B201DF8, 0x7BEB9700), 0x00000018, 15, 0xAB9423A7);
    Next(r, x, 51, Regs(0x7BEB9700, 0xB298CEFD, 0xF4E8E96E, 0x7B201DF8), 0x00000000, 21, 0xFC93A039);
    Next(r, x, 52, Regs(0x7B201DF8, 0x8BF025C4, 0xB298CEFD, 0xF4E8E96E), 0x00000000, 6, 0x655B59C3);
    Next(r, x, 53, Regs(0xF4E8E96E, 0x06CC5E8A, 0x8BF025C4, 0xB298CEFD), 0x00000000, 10, 0x8F0CCC92);
    Next(r, x, 54, Regs(0xB298CEFD, 0x5B0D97AA, 0x06CC5E8A, 0x8BF025C4), 0x00000000, 15, 0xFFEFF47D);
    Next(r, x, 55, Regs(0x8BF025C4, 0x7D632DD0, 0x5B0D97AA, 0x06CC5E8A), 0x00000000, 21, 0x85845DD1);
    Next(r, x, 56, Regs(0x06CC5E8A, 0x3BFA2C27, 0x7D632DD0, 0x5B0D97AA), 0x00000000, 6, 0x6FA87E4F);
    Next(r, x, 57, Regs(0x5B0D97AA, 0x7F81CC35, 0x3BFA2C27, 0x7D632DD0), 0x00000000, 10, 0xFE2CE6E0);
    Next(r, x, 58, Regs(0x7D632DD0, 0x094454AB, 0x7F81CC35, 0x3BFA2C27), 0x00000000, 15, 0xA3014314);
    Next(r, x, 59, Regs(0x3BFA2C27, 0x4F9DBE3F, 0x094454AB, 0x7F81CC35), 0x00000000, 21, 0x4E0811A1);
    Next(r, x, 60, Regs(0x7F81CC35, 0x7327D604, 0x4F9DBE3F, 0x094454AB), 0x00000000, 6, 0xF7537E82);
    Next(r, x, 61, Regs(0x094454AB, 0x310ADE8F, 0x7327D604, 0x4F9DBE3F), 0x00000000, 10, 0xBD3AF235);
    Next(r, x, 62, Regs(0x4F9DBE3F, 0x624D8CB2, 0x310ADE8F, 0x7327D604), 0x00000000, 15, 0x2AD7D2BB);
    Next(r, x, 63, Regs(0x7327D604, 0xE484B9D8, 0x624D8CB2, 0x310ADE8F), 0x00000000, 21, 0xEB86D391);
  }

  lemma AbcCompress(b: Block)
    requires AbcWords(WordsOf(b))
    ensures Compress(INITIAL, b) == Regs(0x98500190, 0xB04FD23C, 0x7D3F96D6, 0x727FE128)
  {
    hide Operations, WordsOf, AbcWords;
    var x := WordsOf(b);
    NoOperations(INITIAL, x);
    AbcRound1(INITIAL, x);
    AbcRound2(INITIAL, x);
    AbcRound3(INITIAL, x);
    AbcRound4(INITIAL, x);
  }

  lemma AbcBlock(b: Block)
    requires b == [0x61, 0x62, 0x63] + [0x80] + Zeros(52) + [24, 0, 0, 0, 0, 0, 0, 0]
    ensures AbcWords(WordsOf(b))
  {
    assert Four(0x61, 0x62, 0x63, 0x80) == 0x80636261 && Four(24, 0, 0, 0) == 24 && Four(0, 0, 0, 0) == 0;
    hide Four;
    assert b[..4] == [0x61, 0x62, 0x63, 0x80] && b[56..] == [24, 0, 0, 0, 0, 0, 0, 0];
    assert forall i :: 4 <= i < 56 ==> b[i] == 0;
  }

  lemma AbcLength()
    ensures LittleEndian(24, 8) == [24, 0, 0, 0, 0, 0, 0, 0]
  {
    LowByte(24, 24);
    LowByte(0, 0);
    hide Low;
    assert LittleEndian(0, 3) == [0, 0, 0];
    assert LittleEndian(0, 7) == [0, 0, 0, 0] + LittleEndian(0, 3);
  }

  lemma AbcOutput()
    ensures Output(Regs(0x98500190, 0xB04FD23C, 0x7D3F96D6, 0x727FE128))
         == [0x90, 0x01, 0x50, 0x98, 0x3C, 0xD2, 0x4F, 0xB0, 0xD6, 0x96, 0x3F, 0x7D, 0x28, 0xE1, 0x7F, 0x72]
  {
    WordBytes(0x98500190, 0x90, 0x01, 0x50, 0x98);
    WordBytes(0xB04FD23C, 0x3C, 0xD2, 0x4F, 0xB0);
    WordBytes(0x7D3F96D6, 0xD6, 0x96, 0x3F, 0x7D);
    WordBytes(0x727FE128, 0x28, 0xE1, 0x7F, 0x72);
    hide ByteOf;
  }

  lemma WordBytes(w: Word, a: Byte, b: Byte, c: Byte, d: Byte)
    requires w == Four(a, b, c, d)
    ensures ByteOf(w, 0) == a && ByteOf(w, 1) == b && ByteOf(w, 2) == c && ByteOf(w, 3) == d
  {
  }

  /** The answer of appendix A.5 of RFC 1321 for "abc". */
  lemma AbcDigest()
    ensures Output(Digest([0x61, 0x62, 0x63]))
         == [0x90, 0x01, 0x50, 0x98, 0x3C, 0xD2, 0x4F, 0xB0, 0xD6, 0x96, 0x3F, 0x7D, 0x28, 0xE1, 0x7F, 0x72]
  {
    hide Compress, Fold, Digest, LittleEndian, Output;
    var m: seq<Byte> := [0x61, 0x62, 0x63];
    var block: Block := m + [0x80] + Zeros(52) + Length(m);
    AbcLength();
    AbcBlock(block);
    AbcCompress(block);
    OneBlock(m, block);
    AbcOutput();
  }

  /** A message that needs one block only. */
  lemma OneBlock(m: seq<Byte>, block: Block)
    requires |m| <= 55 && block == m + [0x80] + Zeros(55 - |m|) + Length(m)
    ensures Digest(m) == Compress(INITIAL, block)
  {
    hide Compress, Fold, LittleEndian;
    assert PadZeros(|m|) == 55 - |m|;
    assert Padded(m) == [] + block;
    FoldMore(INITIAL, [], block);
    FoldNothing(INITIAL);
  }
}
