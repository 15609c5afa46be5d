/** Answers of SHA-1 that the standard gives, worked out round by round. */
module Sha1Answers {
  import opened Bytes
  import opened Blocks
  import opened Sha1

  // --------------------------------------------------- one round on known words

  lemma Turns(x: Word)
    ensures CircularShift(5, x) == (x << 5) | (x >> 27)
    ensures CircularShift(30, x) == (x << 30) | (x >> 2)
    ensures CircularShift(1, x) == (x << 1) | (x >> 31)
  {
  }

  lemma RoundIs(r: Regs, t: nat, w: Word)
    ensures Round(r, t, w) == Regs(Add(Add(Add(Add((r.a << 5) | (r.a >> 27), F(t, r.b, r.c, r.d)), r.e), w), K(t)), r.a, (r.b << 30) | (r.b >> 2), r.c, r.d)
  {
    hide Add, CircularShift, F, K;
    Turns(r.a);
    Turns(r.b);
  }

  /** After t rounds the registers are s, and the next word is x. */
  lemma Next(r: Regs, w: seq<Word>, t: nat, s: Regs, x: Word)
    requires t < |w| && Rounds(r, w, t) == s && w[t] == x
    ensures Rounds(r, w, t + 1) == Regs(Add(Add(Add(Add((s.a << 5) | (s.a >> 27), F(t, s.b, s.c, s.d)), s.e), x), K(t)), s.a, (s.b << 30) | (s.b >> 2), s.c, s.d)
  {
    hide Round, F, K, Add;
    RoundIs(s, t, x);
  }

  // ------------------------------------------------------ the schedule on known words

  function Mix(a: Word, b: Word, c: Word, d: Word): Word {
    ((a ^ b ^ c ^ d) << 1) | ((a ^ b ^ c ^ d) >> 31)
  }

  lemma MixIs(a: Word, b: Word, c: Word, d: Word)
    ensures CircularShift(1, Mixed(a, b, c, d)) == Mix(a, b, c, d)
  {
    hide CircularShift;
    Turns(a ^ b ^ c ^ d);
  }

  /** Each word of the schedule comes of four before it. */
  predicate Follows(w: seq<Word>, t: nat)
    requires 16 <= t < |w|
  {
    w[t] == Mix(w[t - 3], w[t - 8], w[t - 14], w[t - 16])
  }

  lemma {:induction false} WordsFollow(b: Block, n: nat, t: nat)
    requires t < n <= 80
    ensures t < 16 ==> Schedule(b, n)[t] == WordOf(b, t)
    ensures t >= 16 ==> Follows(Schedule(b, n), t)
    decreases n
  {
    hide WordOf, CircularShift, Mixed, Mix;
    var v := Schedule(b, n - 1);
    if t < n - 1 {
      WordsFollow(b, n - 1, t);
      assert forall i :: 0 <= i < n - 1 ==> Schedule(b, n)[i] == v[i];
    } else if t >= 16 {
      MixIs(v[t - 3], v[t - 8], v[t - 14], v[t - 16]);
    }
  }

  // -------------------------------------------------------- blocks and their words

  /** A length below 2^16, in eight bytes. */
  lemma LengthBytes(n: nat, high: Byte, low: Byte)
    requires n / 256 == high as nat && n % 256 == low as nat
    ensures BigEndian(n, 8) == [0, 0, 0, 0, 0, 0, high, low]
  {
    hide BigEndian, Low;
    LowByte(n, low);
    LowByte(n / 256, high);
    NoBytes();
    LastByte(n, 7);
    LastByte(n / 256, 6);
  }

  lemma LastByte(n: nat, k: nat)
    ensures BigEndian(n, k + 1) == BigEndian(n / 256, k) + [Low(n)]
  {
    hide Low;
  }

  lemma NoBytes()
    ensures BigEndian(0, 6) == [0, 0, 0, 0, 0, 0]
  {
    LowByte(0, 0);
    hide Low;
    assert BigEndian(0, 3) == [0, 0, 0];
  }

  /** The schedule of a block follows from its first sixteen words. */
  lemma ScheduleFollows(b: Block)
    ensures var w := Schedule(b, 80);
            && (forall t :: 0 <= t < 16 ==> w[t] == WordOf(b, t))
            && (forall t :: 16 <= t < 80 ==> Follows(w, t))
  {
    forall t | 0 <= t < 80
      ensures t < 16 ==> Schedule(b, 80)[t] == WordOf(b, t)
      ensures t >= 16 ==> Follows(Schedule(b, 80), t)
    {
      WordsFollow(b, 80, t);
    }
  }

  lemma NoRounds(r: Regs, w: seq<Word>)
    ensures Rounds(r, w, 0) == r
  {
  }

  // ----------------------------------------------------------------- "abc"

  predicate AbcRow0(w: seq<Word>)
    requires |w| == 80
  {
    && w[0] == 0x61626380 && w[1] == 0x00000000 && w[2] == 0x00000000 && w[3] == 0x00000000
    && w[4] == 0x00000000 && w[5] == 0x00000000 && w[6] == 0x00000000 && w[7] == 0x00000000
    && w[8] == 0x00000000 && w[9] == 0x00000000 && w[10] == 0x00000000 && w[11] == 0x00000000
    && w[12] == 0x00000000 && w[13] == 0x00000000 && w[14] == 0x00000000 && w[15] == 0x00000018
  }

  predicate AbcRow1(w: seq<Word>)
    requires |w| == 80
  {
    && w[16] == 0xC2C4C700 && w[17] == 0x00000000 && w[18] == 0x00000030 && w[19] == 0x85898E01
    && w[20] == 0x00000000 && w[21] == 0x00000060 && w[22] == 0x0B131C03 && w[23] == 0x00000030
    && w[24] == 0x85898EC1 && w[25] == 0x16263806 && w[26] == 0x00000000 && w[27] == 0x00000180
    && w[28] == 0x2C4C700C && w[29] == 0x000000F0 && w[30] == 0x93AFB507 && w[31] == 0x5898E048
  }

  predicate AbcRow2(w: seq<Word>)
    requires |w| == 80
  {
    && w[32] == 0x8E9A9202 && w[33] == 0x00000600 && w[34] == 0xB131C0F0 && w[35] == 0x16263BC6
    && w[36] == 0x4EBED41E && w[37] == 0x626380A1 && w[38] == 0x16263806 && w[39] == 0x000018C0
    && w[40] == 0xD2E138C4 && w[41] == 0x00000F00 && w[42] == 0x3AFB5079 && w[43] == 0x898E04E5
    && w[44] == 0xE2BA3C2B && w[45] == 0x000060C0 && w[46] == 0x053A37CD && w[47] == 0x74458547
  }

  predicate AbcRow3(w: seq<Word>)
    requires |w| == 80
  {
    && w[48] == 0xDA9415ED && w[49] == 0x26380A16 && w[50] == 0x626383A1 && w[51] == 0x4EBF54DE
    && w[52] == 0x3835B44B && w[53] == 0x0000F600 && w[54] == 0x1E84C7A3 && w[55] == 0x98E04D98
    && w[56] == 0x651D16A0 && w[57] == 0x62658CA1 && w[58] == 0x458544D6 && w[59] == 0x44584CB7
    && w[60] == 0x7BA06619 && w[61] == 0x6380AEA2 && w[62] == 0x0AE55269 && w[63] == 0x627B49A1
  }

  predicate AbcRow4(w: seq<Word>)
    requires |w| == 80
  {
    && w[64] == 0x7CD45C9D && w[65] == 0x000F0000 && w[66] == 0xFB50753A && w[67] == 0xEC6765E8
    && w[68] == 0xBA3C2BE2 && w[69] == 0x0060C000 && w[70] == 0x3A37CD05 && w[71] == 0x458546F4
    && w[72] == 0xB8599DD6 && w[73] == 0x380A1A26 && w[74] == 0x01E02203 && w[75] == 0xE7CC3456
    && w[76] == 0xE6E60B69 && w[77] == 0x00F60A00 && w[78] == 0x5795EF4F && w[79] == 0x822E0879
  }

  lemma AbcSchedule1(w: seq<Word>)
    requires |w| == 80 && (forall t :: 16 <= t < 32 ==> Follows(w, t)) && AbcRow0(w)
    ensures AbcRow1(w)
  {
    assert Follows(w, 16) && Follows(w, 17) && Follows(w, 18) && Follows(w, 19) && Follows(w, 20) && Follows(w, 21) && Follows(w, 22) && Follows(w, 23) && Follows(w, 24) && Follows(w, 25) && Follows(w, 26) && Follows(w, 27) && Follows(w, 28) && Follows(w, 29) && Follows(w, 30) && Follows(w, 31);
  }

  lemma AbcSchedule2(w: seq<Word>)
    requires |w| == 80 && (forall t :: 32 <= t < 48 ==> Follows(w, t)) && AbcRow1(w)
    ensures AbcRow2(w)
  {
    assert Follows(w, 32) && Follows(w, 33) && Follows(w, 34) && Follows(w, 35) && Follows(w, 36) && Follows(w, 37) && Follows(w, 38) && Follows(w, 39) && Follows(w, 40) && Follows(w, 41) && Follows(w, 42) && Follows(w, 43) && Follows(w, 44) && Follows(w, 45) && Follows(w, 46) && Follows(w, 47);
  }

  lemma AbcSchedule3(w: seq<Word>)
    requires |w| == 80 && (forall t :: 48 <= t < 64 ==> Follows(w, t)) && AbcRow2(w)
    ensures AbcRow3(w)
  {
    assert Follows(w, 48) && Follows(w, 49) && Follows(w, 50) && Follows(w, 51) && Follows(w, 52) && Follows(w, 53) && Follows(w, 54) && Follows(w, 55) && Follows(w, 56) && Follows(w, 57) && Follows(w, 58) && Follows(w, 59) && Follows(w, 60) && Follows(w, 61) && Follows(w, 62) && Follows(w, 63);
  }

  lemma AbcSchedule4(w: seq<Word>)
    requires |w| == 80 && (forall t :: 64 <= t < 80 ==> Follows(w, t)) && AbcRow3(w)
    ensures AbcRow4(w)
  {
    assert Follows(w, 64) && Follows(w, 65) && Follows(w, 66) && Follows(w, 67) && Follows(w, 68) && Follows(w, 69) && Follows(w, 70) && Follows(w, 71) && Follows(w, 72) && Follows(w, 73) && Follows(w, 74) && Follows(w, 75) && Follows(w, 76) && Follows(w, 77) && Follows(w, 78) && Follows(w, 79);
  }

  lemma AbcRounds0(r: Regs, w: seq<Word>)
    requires |w| == 80 && Rounds(r, w, 0) == Regs(0x67452301, 0xEFCDAB89, 0x98BADCFE, 0x10325476, 0xC3D2E1F0)
    requires AbcRow0(w) && AbcRow1(w)
    ensures Rounds(r, w, 20) == Regs(0xFD9E1D7D, 0xDC64901D, 0x20AA99CA, 0xD3A49608, 0xC82F758B)
  {
    hide Rounds;
    Next(r, w, 0, Regs(0x67452301, 0xEFCDAB89, 0x98BADCFE, 0x10325476, 0xC3D2E1F0), 0x61626380);
    Next(r, w, 1, Regs(0x0116FC33, 0x67452301, 0x7BF36AE2, 0x98BADCFE, 0x10325476), 0x00000000);
    Next(r, w, 2, Regs(0x8990536D, 0x0116FC33, 0x59D148C0, 0x7BF36AE2, 0x98BADCFE), 0x00000000);
    Next(r, w, 3, Regs(0xA1390F08, 0x8990536D, 0xC045BF0C, 0x59D148C0, 0x7BF36AE2), 0x00000000);
    Next(r, w, 4, Regs(0xCDD8E11B, 0xA1390F08, 0x626414DB, 0xC045BF0C, 0x59D148C0), 0x00000000);
    Next(r, w, 5, Regs(0xCFD499DE, 0xCDD8E11B, 0x284E43C2, 0x626414DB, 0xC045BF0C), 0x00000000);
    Next(r, w, 6, Regs(0x3FC7CA40, 0xCFD499DE, 0xF3763846, 0x284E43C2, 0x626414DB), 0x00000000);
    Next(r, w, 7, Regs(0x993E30C1, 0x3FC7CA40, 0xB3F52677, 0xF3763846, 0x284E43C2), 0x00000000);
    Next(r, w, 8, Regs(0x9E8C07D4, 0x993E30C1, 0x0FF1F290, 0xB3F52677, 0xF3763846), 0x00000000);
    Next(r, w, 9, Regs(0x4B6AE328, 0x9E8C07D4, 0x664F8C30, 0x0FF1F290, 0xB3F52677), 0x00000000);
    Next(r, w, 10, Regs(0x8351F929, 0x4B6AE328, 0x27A301F5, 0x664F8C30, 0x0FF1F290), 0x00000000);
    Next(r, w, 11, Regs(0xFBDA9E89, 0x8351F929, 0x12DAB8CA, 0x27A301F5, 0x664F8C30), 0x00000000);
    Next(r, w, 12, Regs(0x63188FE4, 0xFBDA9E89, 0x60D47E4A, 0x12DAB8CA, 0x27A301F5), 0x00000000);
    Next(r, w, 13, Regs(0x4607B664, 0x63188FE4, 0x7EF6A7A2, 0x60D47E4A, 0x12DAB8CA), 0x00000000);
    Next(r, w, 14, Regs(0x9128F695, 0x4607B664, 0x18C623F9, 0x7EF6A7A2, 0x60D47E4A), 0x00000000);
    Next(r, w, 15, Regs(0x196BEE77, 0x9128F695, 0x1181ED99, 0x18C623F9, 0x7EF6A7A2), 0x00000018);
    Next(r, w, 16, Regs(0x20BDD62F, 0x196BEE77, 0x644A3DA5, 0x1181ED99, 0x18C623F9), 0xC2C4C700);
    Next(r, w, 17, Regs(0x4E925823, 0x20BDD62F, 0xC65AFB9D, 0x644A3DA5, 0x1181ED99), 0x00000000);
    Next(r, w, 18, Regs(0x82AA6728, 0x4E925823, 0xC82F758B, 0xC65AFB9D, 0x644A3DA5), 0x00000030);
    Next(r, w, 19, Regs(0xDC64901D, 0x82AA6728, 0xD3A49608, 0xC82F758B, 0xC65AFB9D), 0x85898E01);
  }

  lemma AbcRounds1(r: Regs, w: seq<Word>)
    requires |w| == 80 && Rounds(r, w, 20) == Regs(0xFD9E1D7D, 0xDC64901D, 0x20AA99CA, 0xD3A49608, 0xC82F758B)
    requires AbcRow1(w) && AbcRow2(w)
    ensures Rounds(r, w, 40) == Regs(0x32DE1CBA, 0x4C986405, 0xF718E5CF, 0x03D447F6, 0xF72EEC32)
  {
    hide Rounds;
    Next(r, w, 20, Regs(0xFD9E1D7D, 0xDC64901D, 0x20AA99CA, 0xD3A49608, 0xC82F758B), 0x00000000);
    Next(r, w, 21, Regs(0x1A37B0CA, 0xFD9E1D7D, 0x77192407, 0x20AA99CA, 0xD3A49608), 0x00000060);
    Next(r, w, 22, Regs(0x33A23BFC, 0x1A37B0CA, 0x7F67875F, 0x77192407, 0x20AA99CA), 0x0B131C03);
    Next(r, w, 23, Regs(0x21283486, 0x33A23BFC, 0x868DEC32, 0x7F67875F, 0x77192407), 0x00000030);
    Next(r, w, 24, Regs(0xD541F12D, 0x21283486, 0x0CE88EFF, 0x868DEC32, 0x7F67875F), 0x85898EC1);
    Next(r, w, 25, Regs(0xC7567DC6, 0xD541F12D, 0x884A0D21, 0x0CE88EFF, 0x868DEC32), 0x16263806);
    Next(r, w, 26, Regs(0x48413BA4, 0xC7567DC6, 0x75507C4B, 0x884A0D21, 0x0CE88EFF), 0x00000000);
    Next(r, w, 27, Regs(0xBE35FBD5, 0x48413BA4, 0xB1D59F71, 0x75507C4B, 0x884A0D21), 0x00000180);
    Next(r, w, 28, Regs(0x4AA84D97, 0xBE35FBD5, 0x12104EE9, 0xB1D59F71, 0x75507C4B), 0x2C4C700C);
    Next(r, w, 29, Regs(0x8370B52E, 0x4AA84D97, 0x6F8D7EF5, 0x12104EE9, 0xB1D59F71), 0x000000F0);
    Next(r, w, 30, Regs(0xC5FBAF5D, 0x8370B52E, 0xD2AA1365, 0x6F8D7EF5, 0x12104EE9), 0x93AFB507);
    Next(r, w, 31, Regs(0x1267B407, 0xC5FBAF5D, 0xA0DC2D4B, 0xD2AA1365, 0x6F8D7EF5), 0x5898E048);
    Next(r, w, 32, Regs(0x3B845D33, 0x1267B407, 0x717EEBD7, 0xA0DC2D4B, 0xD2AA1365), 0x8E9A9202);
    Next(r, w, 33, Regs(0x046FAA0A, 0x3B845D33, 0xC499ED01, 0x717EEBD7, 0xA0DC2D4B), 0x00000600);
    Next(r, w, 34, Regs(0x2C0EBC11, 0x046FAA0A, 0xCEE1174C, 0xC499ED01, 0x717EEBD7), 0xB131C0F0);
    Next(r, w, 35, Regs(0x21796AD4, 0x2C0EBC11, 0x811BEA82, 0xCEE1174C, 0xC499ED01), 0x16263BC6);
    Next(r, w, 36, Regs(0xDCBBB0CB, 0x21796AD4, 0x4B03AF04, 0x811BEA82, 0xCEE1174C), 0x4EBED41E);
    Next(r, w, 37, Regs(0x0F511FD8, 0xDCBBB0CB, 0x085E5AB5, 0x4B03AF04, 0x811BEA82), 0x626380A1);
    Next(r, w, 38, Regs(0xDC63973F, 0x0F511FD8, 0xF72EEC32, 0x085E5AB5, 0x4B03AF04), 0x16263806);
    Next(r, w, 39, Regs(0x4C986405, 0xDC63973F, 0x03D447F6, 0xF72EEC32, 0x085E5AB5), 0x000018C0);
  }

  lemma AbcRounds2(r: Regs, w: seq<Word>)
    requires |w| == 80 && Rounds(r, w, 40) == Regs(0x32DE1CBA, 0x4C986405, 0xF718E5CF, 0x03D447F6, 0xF72EEC32)
    requires AbcRow2(w) && AbcRow3(w)
    ensures Rounds(r, w, 60) == Regs(0x3F52DE5A, 0x09D785FD, 0x3498BFD4, 0xF211824F, 0xD79915AB)
  {
    hide Rounds;
    Next(r, w, 40, Regs(0x32DE1CBA, 0x4C986405, 0xF718E5CF, 0x03D447F6, 0xF72EEC32), 0xD2E138C4);
    Next(r, w, 41, Regs(0xFC87DEDF, 0x32DE1CBA, 0x53261901, 0xF718E5CF, 0x03D447F6), 0x00000F00);
    Next(r, w, 42, Regs(0x970A0D5C, 0xFC87DEDF, 0x8CB7872E, 0x53261901, 0xF718E5CF), 0x3AFB5079);
    Next(r, w, 43, Regs(0x7F193DC5, 0x970A0D5C, 0xFF21F7B7, 0x8CB7872E, 0x53261901), 0x898E04E5);
    Next(r, w, 44, Regs(0xEE1B1AAF, 0x7F193DC5, 0x25C28357, 0xFF21F7B7, 0x8CB7872E), 0xE2BA3C2B);
    Next(r, w, 45, Regs(0x40F28E09, 0xEE1B1AAF, 0x5FC64F71, 0x25C28357, 0xFF21F7B7), 0x000060C0);
    Next(r, w, 46, Regs(0x1C51E1F2, 0x40F28E09, 0xFB86C6AB, 0x5FC64F71, 0x25C28357), 0x053A37CD);
    Next(r, w, 47, Regs(0xA01B846C, 0x1C51E1F2, 0x503CA382, 0xFB86C6AB, 0x5FC64F71), 0x74458547);
    Next(r, w, 48, Regs(0xBEAD02CA, 0xA01B846C, 0x8714787C, 0x503CA382, 0xFB86C6AB), 0xDA9415ED);
    Next(r, w, 49, Regs(0xBAF39337, 0xBEAD02CA, 0x2806E11B, 0x8714787C, 0x503CA382), 0x26380A16);
    Next(r, w, 50, Regs(0x120731C5, 0xBAF39337, 0xAFAB40B2, 0x2806E11B, 0x8714787C), 0x626383A1);
    Next(r, w, 51, Regs(0x641DB2CE, 0x120731C5, 0xEEBCE4CD, 0xAFAB40B2, 0x2806E11B), 0x4EBF54DE);
    Next(r, w, 52, Regs(0x3847AD66, 0x641DB2CE, 0x4481CC71, 0xEEBCE4CD, 0xAFAB40B2), 0x3835B44B);
    Next(r, w, 53, Regs(0xE490436D, 0x3847AD66, 0x99076CB3, 0x4481CC71, 0xEEBCE4CD), 0x0000F600);
    Next(r, w, 54, Regs(0x27E9F1D8, 0xE490436D, 0x8E11EB59, 0x99076CB3, 0x4481CC71), 0x1E84C7A3);
    Next(r, w, 55, Regs(0x7B71F76D, 0x27E9F1D8, 0x792410DB, 0x8E11EB59, 0x99076CB3), 0x98E04D98);
    Next(r, w, 56, Regs(0x5E6456AF, 0x7B71F76D, 0x09FA7C76, 0x792410DB, 0x8E11EB59), 0x651D16A0);
    Next(r, w, 57, Regs(0xC846093F, 0x5E6456AF, 0x5EDC7DDB, 0x09FA7C76, 0x792410DB), 0x62658CA1);
    Next(r, w, 58, Regs(0xD262FF50, 0xC846093F, 0xD79915AB, 0x5EDC7DDB, 0x09FA7C76), 0x458544D6);
    Next(r, w, 59, Regs(0x09D785FD, 0xD262FF50, 0xF211824F, 0xD79915AB, 0x5EDC7DDB), 0x44584CB7);
  }

  lemma AbcRounds3(r: Regs, w: seq<Word>)
    requires |w| == 80 && Rounds(r, w, 60) == Regs(0x3F52DE5A, 0x09D785FD, 0x3498BFD4, 0xF211824F, 0xD79915AB)
    requires AbcRow3(w) && AbcRow4(w)
    ensures Rounds(r, w, 80) == Regs(0x42541B35, 0x5738D5E1, 0x21834873, 0x681E6DF6, 0xD8FDF6AD)
  {
    hide Rounds;
    Next(r, w, 60, Regs(0x3F52DE5A, 0x09D785FD, 0x3498BFD4, 0xF211824F, 0xD79915AB), 0x7BA06619);
    Next(r, w, 61, Regs(0xD756C147, 0x3F52DE5A, 0x4275E17F, 0x3498BFD4, 0xF211824F), 0x6380AEA2);
    Next(r, w, 62, Regs(0x548C9CB2, 0xD756C147, 0x8FD4B796, 0x4275E17F, 0x3498BFD4), 0x0AE55269);
    Next(r, w, 63, Regs(0xB66C020B, 0x548C9CB2, 0xF5D5B051, 0x8FD4B796, 0x4275E17F), 0x627B49A1);
    Next(r, w, 64, Regs(0x6B61C9E1, 0xB66C020B, 0x9523272C, 0xF5D5B051, 0x8FD4B796), 0x7CD45C9D);
    Next(r, w, 65, Regs(0x19DFA7AC, 0x6B61C9E1, 0xED9B0082, 0x9523272C, 0xF5D5B051), 0x000F0000);
    Next(r, w, 66, Regs(0x101655F9, 0x19DFA7AC, 0x5AD87278, 0xED9B0082, 0x9523272C), 0xFB50753A);
    Next(r, w, 67, Regs(0x0C3DF2B4, 0x101655F9, 0x0677E9EB, 0x5AD87278, 0xED9B0082), 0xEC6765E8);
    Next(r, w, 68, Regs(0x78DD4D2B, 0x0C3DF2B4, 0x4405957E, 0x0677E9EB, 0x5AD87278), 0xBA3C2BE2);
    Next(r, w, 69, Regs(0x497093C0, 0x78DD4D2B, 0x030F7CAD, 0x4405957E, 0x0677E9EB), 0x0060C000);
    Next(r, w, 70, Regs(0x3F2588C2, 0x497093C0, 0xDE37534A, 0x030F7CAD, 0x4405957E), 0x3A37CD05);
    Next(r, w, 71, Regs(0xC199F8C7, 0x3F2588C2, 0x125C24F0, 0xDE37534A, 0x030F7CAD), 0x458546F4);
    Next(r, w, 72, Regs(0x39859DE7, 0xC199F8C7, 0x8FC96230, 0x125C24F0, 0xDE37534A), 0xB8599DD6);
    Next(r, w, 73, Regs(0xEDB42DE4, 0x39859DE7, 0xF0667E31, 0x8FC96230, 0x125C24F0), 0x380A1A26);
    Next(r, w, 74, Regs(0x11793F6F, 0xEDB42DE4, 0xCE616779, 0xF0667E31, 0x8FC96230), 0x01E02203);
    Next(r, w, 75, Regs(0x5EE76897, 0x11793F6F, 0x3B6D0B79, 0xCE616779, 0xF0667E31), 0xE7CC3456);
    Next(r, w, 76, Regs(0x63F7DAB7, 0x5EE76897, 0xC45E4FDB, 0x3B6D0B79, 0xCE616779), 0xE6E60B69);
    Next(r, w, 77, Regs(0xA079B7D9, 0x63F7DAB7, 0xD7B9DA25, 0xC45E4FDB, 0x3B6D0B79), 0x00F60A00);
    Next(r, w, 78, Regs(0x860D21CC, 0xA079B7D9, 0xD8FDF6AD, 0xD7B9DA25, 0xC45E4FDB), 0x5795EF4F);
    Next(r, w, 79, Regs(0x5738D5E1, 0x860D21CC, 0x681E6DF6, 0xD8FDF6AD, 0xD7B9DA25), 0x822E0879);
  }

  lemma AbcBlock(b: Block)
    requires WordOf(b, 0) == 0x61626380 && WordOf(b, 1) == 0x00000000 && WordOf(b, 2) == 0x00000000 && WordOf(b, 3) == 0x00000000
    requires WordOf(b, 4) == 0x00000000 && WordOf(b, 5) == 0x00000000 && WordOf(b, 6) == 0x00000000 && WordOf(b, 7) == 0x00000000
    requires WordOf(b, 8) == 0x00000000 && WordOf(b, 9) == 0x00000000 && WordOf(b, 10) == 0x00000000 && WordOf(b, 11) == 0x00000000
    requires WordOf(b, 12) == 0x00000000 && WordOf(b, 13) == 0x00000000 && WordOf(b, 14) == 0x00000000 && WordOf(b, 15) == 0x00000018
    ensures Compress(Regs(0x67452301, 0xEFCDAB89, 0x98BADCFE, 0x10325476, 0xC3D2E1F0), b) == Regs(0xA9993E36, 0x4706816A, 0xBA3E2571, 0x7850C26C, 0x9CD0D89D)
  {
    hide Rounds, Schedule, WordOf, Follows;
    var r, w := Regs(0x67452301, 0xEFCDAB89, 0x98BADCFE, 0x10325476, 0xC3D2E1F0), Schedule(b, 80);
    ScheduleFollows(b);
    assert AbcRow0(w);
    AbcSchedule1(w);
    AbcSchedule2(w);
    AbcSchedule3(w);
    AbcSchedule4(w);
    NoRounds(r, w);
    AbcRounds0(r, w);
    AbcRounds1(r, w);
    AbcRounds2(r, w);
    AbcRounds3(r, w);
  }

  /** The first answer of appendix A of FIPS 180-1, for "abc". */
  lemma Abc()
    ensures Five(Digest([0x61, 0x62, 0x63])) == [0xA9993E36, 0x4706816A, 0xBA3E2571, 0x7850C26C, 0x9CD0D89D]
  {
    hide Compress, Fold, Digest, BigEndian;
    var m: seq<Byte> := [0x61, 0x62, 0x63];
    var last: Block := m + [0x80] + Zeros(52) + Length(m);
    LengthBytes(24, 0, 24);
    assert [] + m == m;
    DigestShort([], m);
    FoldNothing(INITIAL);
    AbcLast(last);
    AbcBlock(last);
  }

  lemma AbcLast(b: Block)
    requires b == [0x61, 0x62, 0x63] + [0x80] + Zeros(52) + [0, 0, 0, 0, 0, 0, 0, 24]
    ensures WordOf(b, 0) == 0x61626380 && WordOf(b, 15) == 24
    ensures forall t :: 1 <= t < 15 ==> WordOf(b, t) == 0
  {
    FourIs();
    hide Four;
    assert b[..4] == [0x61, 0x62, 0x63, 0x80] && b[60..] == [0, 0, 0, 24];
    assert forall i :: 4 <= i < 60 ==> b[i] == 0;
  }

  lemma FourIs()
    ensures Four(0x61, 0x62, 0x63, 0x80) == 0x61626380 && Four(0, 0, 0, 24) == 24 && Four(0, 0, 0, 0) == 0
  {
  }
}
