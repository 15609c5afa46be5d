/** The answer that section 1.3 of RFC 6455 works out for a sample key. */
module AcceptSample {
  import opened Bytes
  import opened Blocks
  import opened Sha1
  import opened Sha1Answers
  import opened AcceptKey
  import Base64

  // ------------------------------------------------------------- the first block

  predicate FirstRow0(w: seq<Word>)
    requires |w| == 80
  {
    && w[0] == 0x6447686C && w[1] == 0x49484E68 && w[2] == 0x62584273 && w[3] == 0x5A534275
    && w[4] == 0x6232356A && w[5] == 0x5A513D3D && w[6] == 0x32353845 && w[7] == 0x41464135
    && w[8] == 0x2D453931 && w[9] == 0x342D3437 && w[10] == 0x44412D39 && w[11] == 0x3543412D
    && w[12] == 0x43354142 && w[13] == 0x30444338 && w[14] == 0x35423131 && w[15] == 0x80000000
  }

  predicate FirstRow1(w: seq<Word>)
    requires |w| == 80
  {
    && w[16] == 0x363CA02C && w[17] == 0x24E81236 && w[18] == 0x8856B441 && w[19] == 0x06FB3C92
    && w[20] == 0x6FB4BCB6 && w[21] == 0x460B16E3 && w[22] == 0x599219AE && w[23] == 0x35BF9369
    && w[24] == 0x3267458E && w[25] == 0xF828FD04 && w[26] == 0x753A96A7 && w[27] == 0x6336F612
    && w[28] == 0xC3D66383 && w[29] == 0x06EB86F9 && w[30] == 0x73B4FD42 && w[31] == 0xA503C5B8
  }

  predicate FirstRow2(w: seq<Word>)
    requires |w| == 80
  {
    && w[32] == 0x15CDAE35 && w[33] == 0x531E5DC5 && w[34] == 0x6FB6B7D0 && w[35] == 0x6C16E4AC
    && w[36] == 0x4DDD36BD && w[37] == 0x35D36946 && w[38] == 0xE8AE8B9C && w[39] == 0x4A933AD0
    && w[40] == 0xCE8628B4 && w[41] == 0x415DBA9E && w[42] == 0x2792F049 && w[43] == 0x8E9B79E7
    && w[44] == 0x79C425C5 && w[45] == 0x6353B49D && w[46] == 0x00994218 && w[47] == 0x8A950ED1
  }

  predicate FirstRow3(w: seq<Word>)
    requires |w| == 80
  {
    && w[48] == 0xAF5D0B99 && w[49] == 0xFD9883DE && w[50] == 0x1ED8FFEB && w[51] == 0xF007FF28
    && w[52] == 0x425E3674 && w[53] == 0x059631C0 && w[54] == 0xAD6C3C31 && w[55] == 0x860B71D7
    && w[56] == 0x87BFC548 && w[57] == 0x3E64F92D && w[58] == 0x8D0AB761 && w[59] == 0x34E1EE35
    && w[60] == 0x0ACF5108 && w[61] == 0xC2B479DA && w[62] == 0x6C93370A && w[63] == 0xF7935BA1
  }

  predicate FirstRow4(w: seq<Word>)
    requires |w| == 80
  {
    && w[64] == 0xE91C91C1 && w[65] == 0xBED165A2 && w[66] == 0x4C3E4ABE && w[67] == 0x50D96238
    && w[68] == 0xB6587DDE && w[69] == 0x1A2EE6E6 && w[70] == 0x2D335896 && w[71] == 0xF3495D0B
    && w[72] == 0xF30E0A1D && w[73] == 0x32CE5459 && w[74] == 0x7165E3B8 && w[75] == 0xAB05FF94
    && w[76] == 0xC5949F0B && w[77] == 0xBCD84E4A && w[78] == 0x07720392 && w[79] == 0xFF3FF806
  }

  lemma FirstSchedule1(w: seq<Word>)
    requires |w| == 80 && (forall t :: 16 <= t < 32 ==> Follows(w, t)) && FirstRow0(w)
    ensures FirstRow1(w)
  {
    assert Follows(w, 16) && Follows(w, 17) && Follows(w, 18) && Follows(w, 19) && Follows(w, 20) && Follows(w, 21) && Follows(w, 22) && Follows(w, 23) && Follows(w, 24) && Follows(w, 25) && Follows(w, 26) && Follows(w, 27) && Follows(w, 28) && Follows(w, 29) && Follows(w, 30) && Follows(w, 31);
  }

  lemma FirstSchedule2(w: seq<Word>)
    requires |w| == 80 && (forall t :: 32 <= t < 48 ==> Follows(w, t)) && FirstRow1(w)
    ensures FirstRow2(w)
  {
    assert Follows(w, 32) && Follows(w, 33) && Follows(w, 34) && Follows(w, 35) && Follows(w, 36) && Follows(w, 37) && Follows(w, 38) && Follows(w, 39) && Follows(w, 40) && Follows(w, 41) && Follows(w, 42) && Follows(w, 43) && Follows(w, 44) && Follows(w, 45) && Follows(w, 46) && Follows(w, 47);
  }

  lemma FirstSchedule3(w: seq<Word>)
    requires |w| == 80 && (forall t :: 48 <= t < 64 ==> Follows(w, t)) && FirstRow2(w)
    ensures FirstRow3(w)
  {
    assert Follows(w, 48) && Follows(w, 49) && Follows(w, 50) && Follows(w, 51) && Follows(w, 52) && Follows(w, 53) && Follows(w, 54) && Follows(w, 55) && Follows(w, 56) && Follows(w, 57) && Follows(w, 58) && Follows(w, 59) && Follows(w, 60) && Follows(w, 61) && Follows(w, 62) && Follows(w, 63);
  }

  lemma FirstSchedule4(w: seq<Word>)
    requires |w| == 80 && (forall t :: 64 <= t < 80 ==> Follows(w, t)) && FirstRow3(w)
    ensures FirstRow4(w)
  {
    assert Follows(w, 64) && Follows(w, 65) && Follows(w, 66) && Follows(w, 67) && Follows(w, 68) && Follows(w, 69) && Follows(w, 70) && Follows(w, 71) && Follows(w, 72) && Follows(w, 73) && Follows(w, 74) && Follows(w, 75) && Follows(w, 76) && Follows(w, 77) && Follows(w, 78) && Follows(w, 79);
  }

  lemma FirstRounds0(r: Regs, w: seq<Word>)
    requires |w| == 80 && Rounds(r, w, 0) == Regs(0x67452301, 0xEFCDAB89, 0x98BADCFE, 0x10325476, 0xC3D2E1F0)
    requires FirstRow0(w) && FirstRow1(w)
    ensures Rounds(r, w, 20) == Regs(0x091AB97C, 0x8DC510B6, 0xDFAECA5A, 0x75F6BD5D, 0x2801311A)
  {
    hide Rounds;
    Next(r, w, 0, Regs(0x67452301, 0xEFCDAB89, 0x98BADCFE, 0x10325476, 0xC3D2E1F0), 0x6447686C);
    Next(r, w, 1, Regs(0x03FC011F, 0x67452301, 0x7BF36AE2, 0x98BADCFE, 0x10325476), 0x49484E68);
    Next(r, w, 2, Regs(0x2F793F55, 0x03FC011F, 0x59D148C0, 0x7BF36AE2, 0x98BADCFE), 0x62584273);
    Next(r, w, 3, Regs(0xBE90EE8F, 0x2F793F55, 0xC0FF0047, 0x59D148C0, 0x7BF36AE2), 0x5A534275);
    Next(r, w, 4, Regs(0x53E039AC, 0xBE90EE8F, 0x4BDE4FD5, 0xC0FF0047, 0x59D148C0), 0x6232356A);
    Next(r, w, 5, Regs(0xDD8C7C12, 0x53E039AC, 0xEFA43BA3, 0x4BDE4FD5, 0xC0FF0047), 0x5A513D3D);
    Next(r, w, 6, Regs(0x7320B969, 0xDD8C7C12, 0x14F80E6B, 0xEFA43BA3, 0x4BDE4FD5), 0x32353845);
    Next(r, w, 7, Regs(0x73553E84, 0x7320B969, 0xB7631F04, 0x14F80E6B, 0xEFA43BA3), 0x41464135);
    Next(r, w, 8, Regs(0x2E0CE601, 0x73553E84, 0x5CC82E5A, 0xB7631F04, 0x14F80E6B), 0x2D453931);
    Next(r, w, 9, Regs(0x32BEB05A, 0x2E0CE601, 0x1CD54FA1, 0x5CC82E5A, 0xB7631F04), 0x342D3437);
    Next(r, w, 10, Regs(0xFAAD2675, 0x32BEB05A, 0x4B833980, 0x1CD54FA1, 0x5CC82E5A), 0x44412D39);
    Next(r, w, 11, Regs(0x5FF4238C, 0xFAAD2675, 0x8CAFAC16, 0x4B833980, 0x1CD54FA1), 0x3543412D);
    Next(r, w, 12, Regs(0x34CEB986, 0x5FF4238C, 0x7EAB499D, 0x8CAFAC16, 0x4B833980), 0x43354142);
    Next(r, w, 13, Regs(0x61BDB2BF, 0x34CEB986, 0x17FD08E3, 0x7EAB499D, 0x8CAFAC16), 0x30444338);
    Next(r, w, 14, Regs(0xAE1A096E, 0x61BDB2BF, 0x8D33AE61, 0x17FD08E3, 0x7EAB499D), 0x35423131);
    Next(r, w, 15, Regs(0xE922CC9D, 0xAE1A096E, 0xD86F6CAF, 0x8D33AE61, 0x17FD08E3), 0x80000000);
    Next(r, w, 16, Regs(0xA004C468, 0xE922CC9D, 0xAB86825B, 0xD86F6CAF, 0x8D33AE61), 0x363CA02C);
    Next(r, w, 17, Regs(0xD7DAF575, 0xA004C468, 0x7A48B327, 0xAB86825B, 0xD86F6CAF), 0x24E81236);
    Next(r, w, 18, Regs(0x7EBB296B, 0xD7DAF575, 0x2801311A, 0x7A48B327, 0xAB86825B), 0x8856B441);
    Next(r, w, 19, Regs(0x8DC510B6, 0x7EBB296B, 0x75F6BD5D, 0x2801311A, 0x7A48B327), 0x06FB3C92);
  }

  lemma FirstRounds1(r: Regs, w: seq<Word>)
    requires |w| == 80 && Rounds(r, w, 20) == Regs(0x091AB97C, 0x8DC510B6, 0xDFAECA5A, 0x75F6BD5D, 0x2801311A)
    requires FirstRow1(w) && FirstRow2(w)
    ensures Rounds(r, w, 40) == Regs(0x2BA2C83E, 0xD0869081, 0x1A1D8209, 0xD3334889, 0x2779E4F2)
  {
    hide Rounds;
    Next(r, w, 20, Regs(0x091AB97C, 0x8DC510B6, 0xDFAECA5A, 0x75F6BD5D, 0x2801311A), 0x6FB4BCB6);
    Next(r, w, 21, Regs(0x518470A3, 0x091AB97C, 0xA371442D, 0xDFAECA5A, 0x75F6BD5D), 0x460B16E3);
    Next(r, w, 22, Regs(0xD12F0B56, 0x518470A3, 0x0246AE5F, 0xA371442D, 0xDFAECA5A), 0x599219AE);
    Next(r, w, 23, Regs(0xBEAFD554, 0xD12F0B56, 0xD4611C28, 0x0246AE5F, 0xA371442D), 0x35BF9369);
    Next(r, w, 24, Regs(0x250E26EF, 0xBEAFD554, 0xB44BC2D5, 0xD4611C28, 0x0246AE5F), 0x3267458E);
    Next(r, w, 25, Regs(0x23D1C91B, 0x250E26EF, 0x2FABF555, 0xB44BC2D5, 0xD4611C28), 0xF828FD04);
    Next(r, w, 26, Regs(0x748B39A0, 0x23D1C91B, 0xC94389BB, 0x2FABF555, 0xB44BC2D5), 0x753A96A7);
    Next(r, w, 27, Regs(0xEF012F20, 0x748B39A0, 0xC8F47246, 0xC94389BB, 0x2FABF555), 0x6336F612);
    Next(r, w, 28, Regs(0x571F7D82, 0xEF012F20, 0x1D22CE68, 0xC8F47246, 0xC94389BB), 0xC3D66383);
    Next(r, w, 29, Regs(0x1ABB1C37, 0x571F7D82, 0x3BC04BC8, 0x1D22CE68, 0xC8F47246), 0x06EB86F9);
    Next(r, w, 30, Regs(0x081B63E5, 0x1ABB1C37, 0x95C7DF60, 0x3BC04BC8, 0x1D22CE68), 0x73B4FD42);
    Next(r, w, 31, Regs(0xB7DABC8B, 0x081B63E5, 0xC6AEC70D, 0x95C7DF60, 0x3BC04BC8), 0xA503C5B8);
    Next(r, w, 32, Regs(0xA6680A1F, 0xB7DABC8B, 0x4206D8F9, 0xC6AEC70D, 0x95C7DF60), 0x15CDAE35);
    Next(r, w, 33, Regs(0x1AE360A9, 0xA6680A1F, 0xEDF6AF22, 0x4206D8F9, 0xC6AEC70D), 0x531E5DC5);
    Next(r, w, 34, Regs(0xEEABA35A, 0x1AE360A9, 0xE99A0287, 0xEDF6AF22, 0x4206D8F9), 0x6FB6B7D0);
    Next(r, w, 35, Regs(0x149BB4D3, 0xEEABA35A, 0x46B8D82A, 0xE99A0287, 0xEDF6AF22), 0x6C16E4AC);
    Next(r, w, 36, Regs(0x9DE793C8, 0x149BB4D3, 0xBBAAE8D6, 0x46B8D82A, 0xE99A0287), 0x4DDD36BD);
    Next(r, w, 37, Regs(0x4CCD2227, 0x9DE793C8, 0xC526ED34, 0xBBAAE8D6, 0x46B8D82A), 0x35D36946);
    Next(r, w, 38, Regs(0x68760824, 0x4CCD2227, 0x2779E4F2, 0xC526ED34, 0xBBAAE8D6), 0xE8AE8B9C);
    Next(r, w, 39, Regs(0xD0869081, 0x68760824, 0xD3334889, 0x2779E4F2, 0xC526ED34), 0x4A933AD0);
  }

  lemma FirstRounds2(r: Regs, w: seq<Word>)
    requires |w| == 80 && Rounds(r, w, 40) == Regs(0x2BA2C83E, 0xD0869081, 0x1A1D8209, 0xD3334889, 0x2779E4F2)
    requires FirstRow2(w) && FirstRow3(w)
    ensures Rounds(r, w, 60) == Regs(0x4872D85A, 0xD284F163, 0x83091F0B, 0x1BBDBFBD, 0x9F8490BC)
  {
    hide Rounds;
    Next(r, w, 40, Regs(0x2BA2C83E, 0xD0869081, 0x1A1D8209, 0xD3334889, 0x2779E4F2), 0xCE8628B4);
    Next(r, w, 41, Regs(0xCB8C52D0, 0x2BA2C83E, 0x7421A420, 0x1A1D8209, 0xD3334889), 0x415DBA9E);
    Next(r, w, 42, Regs(0x4F589A44, 0xCB8C52D0, 0x8AE8B20F, 0x7421A420, 0x1A1D8209), 0x2792F049);
    Next(r, w, 43, Regs(0x868829B7, 0x4F589A44, 0x32E314B4, 0x8AE8B20F, 0x7421A420), 0x8E9B79E7);
    Next(r, w, 44, Regs(0x6DC6A3D7, 0x868829B7, 0x13D62691, 0x32E314B4, 0x8AE8B20F), 0x79C425C5);
    Next(r, w, 45, Regs(0x5F5F3452, 0x6DC6A3D7, 0xE1A20A6D, 0x13D62691, 0x32E314B4), 0x6353B49D);
    Next(r, w, 46, Regs(0x72FF334D, 0x5F5F3452, 0xDB71A8F5, 0xE1A20A6D, 0x13D62691), 0x00994218);
    Next(r, w, 47, Regs(0xDEE4B7A8, 0x72FF334D, 0x97D7CD14, 0xDB71A8F5, 0xE1A20A6D), 0x8A950ED1);
    Next(r, w, 48, Regs(0xABE1748A, 0xDEE4B7A8, 0x5CBFCCD3, 0x97D7CD14, 0xDB71A8F5), 0xAF5D0B99);
    Next(r, w, 49, Regs(0x7510D04F, 0xABE1748A, 0x37B92DEA, 0x5CBFCCD3, 0x97D7CD14), 0xFD9883DE);
    Next(r, w, 50, Regs(0x065F8486, 0x7510D04F, 0xAAF85D22, 0x37B92DEA, 0x5CBFCCD3), 0x1ED8FFEB);
    Next(r, w, 51, Regs(0x0E5D77C4, 0x065F8486, 0xDD443413, 0xAAF85D22, 0x37B92DEA), 0xF007FF28);
    Next(r, w, 52, Regs(0x10E7F671, 0x0E5D77C4, 0x8197E121, 0xDD443413, 0xAAF85D22), 0x425E3674);
    Next(r, w, 53, Regs(0x26C69395, 0x10E7F671, 0x03975DF1, 0x8197E121, 0xDD443413), 0x059631C0);
    Next(r, w, 54, Regs(0x4C608AC4, 0x26C69395, 0x4439FD9C, 0x03975DF1, 0x8197E121), 0xAD6C3C31);
    Next(r, w, 55, Regs(0x50C9104C, 0x4C608AC4, 0x49B1A4E5, 0x4439FD9C, 0x03975DF1), 0x860B71D7);
    Next(r, w, 56, Regs(0x7E1242F2, 0x50C9104C, 0x131822B1, 0x49B1A4E5, 0x4439FD9C), 0x87BFC548);
    Next(r, w, 57, Regs(0x6EF6FEF4, 0x7E1242F2, 0x14324413, 0x131822B1, 0x49B1A4E5), 0x3E64F92D);
    Next(r, w, 58, Regs(0x0C247C2E, 0x6EF6FEF4, 0x9F8490BC, 0x14324413, 0x131822B1), 0x8D0AB761);
    Next(r, w, 59, Regs(0xD284F163, 0x0C247C2E, 0x1BBDBFBD, 0x9F8490BC, 0x14324413), 0x34E1EE35);
  }

  lemma FirstRounds3(r: Regs, w: seq<Word>)
    requires |w| == 80 && Rounds(r, w, 60) == Regs(0x4872D85A, 0xD284F163, 0x83091F0B, 0x1BBDBFBD, 0x9F8490BC)
    requires FirstRow3(w) && FirstRow4(w)
    ensures Rounds(r, w, 80) == Regs(0xF48A5426, 0x835995E1, 0x25C11EFB, 0x4A45C402, 0x9A73C2F2)
  {
    hide Rounds;
    Next(r, w, 60, Regs(0x4872D85A, 0xD284F163, 0x83091F0B, 0x1BBDBFBD, 0x9F8490BC), 0x0ACF5108);
    Next(r, w, 61, Regs(0xCD4200B8, 0x4872D85A, 0xF4A13C58, 0x83091F0B, 0x1BBDBFBD), 0xC2B479DA);
    Next(r, w, 62, Regs(0x90F00D8F, 0xCD4200B8, 0x921CB616, 0xF4A13C58, 0x83091F0B), 0x6C93370A);
    Next(r, w, 63, Regs(0x840054D3, 0x90F00D8F, 0x3350802E, 0x921CB616, 0xF4A13C58), 0xF7935BA1);
    Next(r, w, 64, Regs(0x685E2FF6, 0x840054D3, 0xE43C0363, 0x3350802E, 0x921CB616), 0xE91C91C1);
    Next(r, w, 65, Regs(0xA4CEE018, 0x685E2FF6, 0xE1001534, 0xE43C0363, 0x3350802E), 0xBED165A2);
    Next(r, w, 66, Regs(0xC3C2E45B, 0xA4CEE018, 0x9A178BFD, 0xE1001534, 0xE43C0363), 0x4C3E4ABE);
    Next(r, w, 67, Regs(0x53131A40, 0xC3C2E45B, 0x2933B806, 0x9A178BFD, 0xE1001534), 0x50D96238);
    Next(r, w, 68, Regs(0xCF8658EC, 0x53131A40, 0xF0F0B916, 0x2933B806, 0x9A178BFD), 0xB6587DDE);
    Next(r, w, 69, Regs(0x966E049A, 0xCF8658EC, 0x14C4C690, 0xF0F0B916, 0x2933B806), 0x1A2EE6E6);
    Next(r, w, 70, Regs(0x07381B7E, 0x966E049A, 0x33E1963B, 0x14C4C690, 0xF0F0B916), 0x2D335896);
    Next(r, w, 71, Regs(0x80D59773, 0x07381B7E, 0xA59B8126, 0x33E1963B, 0x14C4C690), 0xF3495D0B);
    Next(r, w, 72, Regs(0x7E65E044, 0x80D59773, 0x81CE06DF, 0xA59B8126, 0x33E1963B), 0xF30E0A1D);
    Next(r, w, 73, Regs(0x628E7B47, 0x7E65E044, 0xE03565DC, 0x81CE06DF, 0xA59B8126), 0x32CE5459);
    Next(r, w, 74, Regs(0x143A8388, 0x628E7B47, 0x1F997811, 0xE03565DC, 0x81CE06DF), 0x7165E3B8);
    Next(r, w, 75, Regs(0xE20983F9, 0x143A8388, 0xD8A39ED1, 0x1F997811, 0xE03565DC), 0xAB05FF94);
    Next(r, w, 76, Regs(0x69CF0BCA, 0xE20983F9, 0x050EA0E2, 0xD8A39ED1, 0x1F997811), 0xC5949F0B);
    Next(r, w, 77, Regs(0x29171009, 0x69CF0BCA, 0x788260FE, 0x050EA0E2, 0xD8A39ED1), 0xBCD84E4A);
    Next(r, w, 78, Regs(0x97047BEC, 0x29171009, 0x9A73C2F2, 0x788260FE, 0x050EA0E2), 0x07720392);
    Next(r, w, 79, Regs(0x835995E1, 0x97047BEC, 0x4A45C402, 0x9A73C2F2, 0x788260FE), 0xFF3FF806);
  }

  lemma FirstBlock(b: Block)
    requires WordOf(b, 0) == 0x6447686C && WordOf(b, 1) == 0x49484E68 && WordOf(b, 2) == 0x62584273 && WordOf(b, 3) == 0x5A534275
    requires WordOf(b, 4) == 0x6232356A && WordOf(b, 5) == 0x5A513D3D && WordOf(b, 6) == 0x32353845 && WordOf(b, 7) == 0x41464135
    requires WordOf(b, 8) == 0x2D453931 && WordOf(b, 9) == 0x342D3437 && WordOf(b, 10) == 0x44412D39 && WordOf(b, 11) == 0x3543412D
    requires WordOf(b, 12) == 0x43354142 && WordOf(b, 13) == 0x30444338 && WordOf(b, 14) == 0x35423131 && WordOf(b, 15) == 0x80000000
    ensures Compress(Regs(0x67452301, 0xEFCDAB89, 0x98BADCFE, 0x10325476, 0xC3D2E1F0), b) == Regs(0x5BCF7727, 0x7327416A, 0xBE7BFBF9, 0x5A781878, 0x5E46A4E2)
  {
    hide Rounds, Schedule, WordOf, Follows;
    var r, w := Regs(0x67452301, 0xEFCDAB89, 0x98BADCFE, 0x10325476, 0xC3D2E1F0), Schedule(b, 80);
    ScheduleFollows(b);
    assert FirstRow0(w);
    FirstSchedule1(w);
    FirstSchedule2(w);
    FirstSchedule3(w);
    FirstSchedule4(w);
    NoRounds(r, w);
    FirstRounds0(r, w);
    FirstRounds1(r, w);
    FirstRounds2(r, w);
    FirstRounds3(r, w);
  }

  // ------------------------------------------------------------ the second block

  predicate SecondRow0(w: seq<Word>)
    requires |w| == 80
  {
    && w[0] == 0x00000000 && w[1] == 0x00000000 && w[2] == 0x00000000 && w[3] == 0x00000000
    && w[4] == 0x00000000 && w[5] == 0x00000000 && w[6] == 0x00000000 && w[7] == 0x00000000
    && w[8] == 0x00000000 && w[9] == 0x00000000 && w[10] == 0x00000000 && w[11] == 0x00000000
    && w[12] == 0x00000000 && w[13] == 0x00000000 && w[14] == 0x00000000 && w[15] == 0x000001E0
  }

  predicate SecondRow1(w: seq<Word>)
    requires |w| == 80
  {
    && w[16] == 0x00000000 && w[17] == 0x00000000 && w[18] == 0x000003C0 && w[19] == 0x00000000
    && w[20] == 0x00000000 && w[21] == 0x00000780 && w[22] == 0x00000000 && w[23] == 0x000003C0
    && w[24] == 0x00000F00 && w[25] == 0x00000000 && w[26] == 0x00000000 && w[27] == 0x00001E00
    && w[28] == 0x00000000 && w[29] == 0x00000CC0 && w[30] == 0x00003C00 && w[31] == 0x00000440
  }

  predicate SecondRow2(w: seq<Word>)
    requires |w| == 80
  {
    && w[32] == 0x00000000 && w[33] == 0x00007800 && w[34] == 0x00000F00 && w[35] == 0x00003300
    && w[36] == 0x0000F000 && w[37] == 0x00000F00 && w[38] == 0x00000000 && w[39] == 0x0001EF00
    && w[40] == 0x00000000 && w[41] == 0x0000CC00 && w[42] == 0x0003C000 && w[43] == 0x00004380
    && w[44] == 0x00000000 && w[45] == 0x00078F00 && w[46] == 0x0000FF00 && w[47] == 0x00032680
  }

  predicate SecondRow3(w: seq<Word>)
    requires |w| == 80
  {
    && w[48] == 0x000F0000 && w[49] == 0x0000F000 && w[50] == 0x00003300 && w[51] == 0x001EFF00
    && w[52] == 0x00000000 && w[53] == 0x000CB800 && w[54] == 0x003C0000 && w[55] == 0x00040B00
    && w[56] == 0x0000F000 && w[57] == 0x0078FF00 && w[58] == 0x000FF000 && w[59] == 0x00338700
    && w[60] == 0x00F00000 && w[61] == 0x000FC300 && w[62] == 0x0000F000 && w[63] == 0x01EFBB00
  }

  predicate SecondRow4(w: seq<Word>)
    requires |w| == 80
  {
    && w[64] == 0x00000000 && w[65] == 0x00CC0000 && w[66] == 0x03C0F000 && w[67] == 0x00438000
    && w[68] == 0x00000000 && w[69] == 0x078F0000 && w[70] == 0x00FF0000 && w[71] == 0x03269E00
    && w[72] == 0x0F000000 && w[73] == 0x00F0F000 && w[74] == 0x00333C00 && w[75] == 0x1EFF8800
    && w[76] == 0x00000000 && w[77] == 0x0CB88800 && w[78] == 0x3C00F000 && w[79] == 0x040A4A00
  }

  lemma SecondSchedule1(w: seq<Word>)
    requires |w| == 80 && (forall t :: 16 <= t < 32 ==> Follows(w, t)) && SecondRow0(w)
    ensures SecondRow1(w)
  {
    assert Follows(w, 16) && Follows(w, 17) && Follows(w, 18) && Follows(w, 19) && Follows(w, 20) && Follows(w, 21) && Follows(w, 22) && Follows(w, 23) && Follows(w, 24) && Follows(w, 25) && Follows(w, 26) && Follows(w, 27) && Follows(w, 28) && Follows(w, 29) && Follows(w, 30) && Follows(w, 31);
  }

  lemma SecondSchedule2(w: seq<Word>)
    requires |w| == 80 && (forall t :: 32 <= t < 48 ==> Follows(w, t)) && SecondRow1(w)
    ensures SecondRow2(w)
  {
    assert Follows(w, 32) && Follows(w, 33) && Follows(w, 34) && Follows(w, 35) && Follows(w, 36) && Follows(w, 37) && Follows(w, 38) && Follows(w, 39) && Follows(w, 40) && Follows(w, 41) && Follows(w, 42) && Follows(w, 43) && Follows(w, 44) && Follows(w, 45) && Follows(w, 46) && Follows(w, 47);
  }

  lemma SecondSchedule3(w: seq<Word>)
    requires |w| == 80 && (forall t :: 48 <= t < 64 ==> Follows(w, t)) && SecondRow2(w)
    ensures SecondRow3(w)
  {
    assert Follows(w, 48) && Follows(w, 49) && Follows(w, 50) && Follows(w, 51) && Follows(w, 52) && Follows(w, 53) && Follows(w, 54) && Follows(w, 55) && Follows(w, 56) && Follows(w, 57) && Follows(w, 58) && Follows(w, 59) && Follows(w, 60) && Follows(w, 61) && Follows(w, 62) && Follows(w, 63);
  }

  lemma SecondSchedule4(w: seq<Word>)
    requires |w| == 80 && (forall t :: 64 <= t < 80 ==> Follows(w, t)) && SecondRow3(w)
    ensures SecondRow4(w)
  {
    assert Follows(w, 64) && Follows(w, 65) && Follows(w, 66) && Follows(w, 67) && Follows(w, 68) && Follows(w, 69) && Follows(w, 70) && Follows(w, 71) && Follows(w, 72) && Follows(w, 73) && Follows(w, 74) && Follows(w, 75) && Follows(w, 76) && Follows(w, 77) && Follows(w, 78) && Follows(w, 79);
  }

  lemma SecondRounds0(r: Regs, w: seq<Word>)
    requires |w| == 80 && Rounds(r, w, 0) == Regs(0x5BCF7727, 0x7327416A, 0xBE7BFBF9, 0x5A781878, 0x5E46A4E2)
    requires SecondRow0(w) && SecondRow1(w)
    ensures Rounds(r, w, 20) == Regs(0x2A008B51, 0x2F193A09, 0x9C8663C1, 0x8EB5D103, 0x261B7C9A)
  {
    hide Rounds;
    Next(r, w, 0, Regs(0x5BCF7727, 0x7327416A, 0xBE7BFBF9, 0x5A781878, 0x5E46A4E2), 0x00000000);
    Next(r, w, 1, Regs(0x6D335CDE, 0x5BCF7727, 0x9CC9D05A, 0xBE7BFBF9, 0x5A781878), 0x00000000);
    Next(r, w, 2, Regs(0x186006B8, 0x6D335CDE, 0xD6F3DDC9, 0x9CC9D05A, 0xBE7BFBF9), 0x00000000);
    Next(r, w, 3, Regs(0xF9FB295D, 0x186006B8, 0x9B4CD737, 0xD6F3DDC9, 0x9CC9D05A), 0x00000000);
    Next(r, w, 4, Regs(0x15855523, 0xF9FB295D, 0x061801AE, 0x9B4CD737, 0xD6F3DDC9), 0x00000000);
    Next(r, w, 5, Regs(0xE43DD2F2, 0x15855523, 0x7E7ECA57, 0x061801AE, 0x9B4CD737), 0x00000000);
    Next(r, w, 6, Regs(0x93A5EFBB, 0xE43DD2F2, 0xC5615548, 0x7E7ECA57, 0x061801AE), 0x00000000);
    Next(r, w, 7, Regs(0xB3BBCAFE, 0x93A5EFBB, 0xB90F74BC, 0xC5615548, 0x7E7ECA57), 0x00000000);
    Next(r, w, 8, Regs(0x25C018BE, 0xB3BBCAFE, 0xE4E97BEE, 0xB90F74BC, 0xC5615548), 0x00000000);
    Next(r, w, 9, Regs(0x80946593, 0x25C018BE, 0xACEEF2BF, 0xE4E97BEE, 0xB90F74BC), 0x00000000);
    Next(r, w, 10, Regs(0x0B0814C3, 0x80946593, 0x8970062F, 0xACEEF2BF, 0xE4E97BEE), 0x00000000);
    Next(r, w, 11, Regs(0x4CE92417, 0x0B0814C3, 0xE0251964, 0x8970062F, 0xACEEF2BF), 0x00000000);
    Next(r, w, 12, Regs(0x250601AD, 0x4CE92417, 0xC2C20530, 0xE0251964, 0x8970062F), 0x00000000);
    Next(r, w, 13, Regs(0x6576D2DC, 0x250601AD, 0xD33A4905, 0xC2C20530, 0xE0251964), 0x00000000);
    Next(r, w, 14, Regs(0xAD43F39E, 0x6576D2DC, 0x4941806B, 0xD33A4905, 0xC2C20530), 0x00000000);
    Next(r, w, 15, Regs(0x990B7BE7, 0xAD43F39E, 0x195DB4B7, 0x4941806B, 0xD33A4905), 0x000001E0);
    Next(r, w, 16, Regs(0x986DF268, 0x990B7BE7, 0xAB50FCE7, 0x195DB4B7, 0x4941806B), 0x00000000);
    Next(r, w, 17, Regs(0x3AD7440E, 0x986DF268, 0xE642DEF9, 0xAB50FCE7, 0x195DB4B7), 0x00000000);
    Next(r, w, 18, Regs(0x72198F06, 0x3AD7440E, 0x261B7C9A, 0xE642DEF9, 0xAB50FCE7), 0x000003C0);
    Next(r, w, 19, Regs(0x2F193A09, 0x72198F06, 0x8EB5D103, 0x261B7C9A, 0xE642DEF9), 0x00000000);
  }

  lemma SecondRounds1(r: Regs, w: seq<Word>)
    requires |w| == 80 && Rounds(r, w, 20) == Regs(0x2A008B51, 0x2F193A09, 0x9C8663C1, 0x8EB5D103, 0x261B7C9A)
    requires SecondRow1(w) && SecondRow2(w)
    ensures Rounds(r, w, 40) == Regs(0x6F698F1A, 0xC6FF0CD3, 0xDE5AB7BC, 0x5F6F3CBB, 0x1DA48A85)
  {
    hide Rounds;
    Next(r, w, 20, Regs(0x2A008B51, 0x2F193A09, 0x9C8663C1, 0x8EB5D103, 0x261B7C9A), 0x00000000);
    Next(r, w, 21, Regs(0x12315B2B, 0x2A008B51, 0x4BC64E82, 0x9C8663C1, 0x8EB5D103), 0x00000780);
    Next(r, w, 22, Regs(0x40FBCF98, 0x12315B2B, 0x4A8022D4, 0x4BC64E82, 0x9C8663C1), 0x00000000);
    Next(r, w, 23, Regs(0x3E5179E7, 0x40FBCF98, 0xC48C56CA, 0x4A8022D4, 0x4BC64E82), 0x000003C0);
    Next(r, w, 24, Regs(0x53C73650, 0x3E5179E7, 0x103EF3E6, 0xC48C56CA, 0x4A8022D4), 0x00000F00);
    Next(r, w, 25, Regs(0x1D24C44A, 0x53C73650, 0xCF945E79, 0x103EF3E6, 0xC48C56CA), 0x00000000);
    Next(r, w, 26, Regs(0x646C677D, 0x1D24C44A, 0x14F1CD94, 0xCF945E79, 0x103EF3E6), 0x00000000);
    Next(r, w, 27, Regs(0xD2E726DA, 0x646C677D, 0x87493112, 0x14F1CD94, 0xCF945E79), 0x00001E00);
    Next(r, w, 28, Regs(0x9327DF6F, 0xD2E726DA, 0x591B19DF, 0x87493112, 0x14F1CD94), 0x00000000);
    Next(r, w, 29, Regs(0xF57CB53E, 0x9327DF6F, 0xB4B9C9B6, 0x591B19DF, 0x87493112), 0x00000CC0);
    Next(r, w, 30, Regs(0x243EE057, 0xF57CB53E, 0xE4C9F7DB, 0xB4B9C9B6, 0x591B19DF), 0x00003C00);
    Next(r, w, 31, Regs(0xF4DDD7B7, 0x243EE057, 0xBD5F2D4F, 0xE4C9F7DB, 0xB4B9C9B6), 0x00000440);
    Next(r, w, 32, Regs(0x3CF6EB58, 0xF4DDD7B7, 0xC90FB815, 0xBD5F2D4F, 0xE4C9F7DB), 0x00000000);
    Next(r, w, 33, Regs(0x730E9170, 0x3CF6EB58, 0xFD3775ED, 0xC90FB815, 0xBD5F2D4F), 0x00007800);
    Next(r, w, 34, Regs(0x96D9E59E, 0x730E9170, 0x0F3DBAD6, 0xFD3775ED, 0xC90FB815), 0x00000F00);
    Next(r, w, 35, Regs(0x942AC4D3, 0x96D9E59E, 0x1CC3A45C, 0x0F3DBAD6, 0xFD3775ED), 0x00003300);
    Next(r, w, 36, Regs(0x76922A14, 0x942AC4D3, 0xA5B67967, 0x1CC3A45C, 0x0F3DBAD6), 0x0000F000);
    Next(r, w, 37, Regs(0x7DBCF2ED, 0x76922A14, 0xE50AB134, 0xA5B67967, 0x1CC3A45C), 0x00000F00);
    Next(r, w, 38, Regs(0x796ADEF3, 0x7DBCF2ED, 0x1DA48A85, 0xE50AB134, 0xA5B67967), 0x00000000);
    Next(r, w, 39, Regs(0xC6FF0CD3, 0x796ADEF3, 0x5F6F3CBB, 0x1DA48A85, 0xE50AB134), 0x0001EF00);
  }

  lemma SecondRounds2(r: Regs, w: seq<Word>)
    requires |w| == 80 && Rounds(r, w, 40) == Regs(0x6F698F1A, 0xC6FF0CD3, 0xDE5AB7BC, 0x5F6F3CBB, 0x1DA48A85)
    requires SecondRow2(w) && SecondRow3(w)
    ensures Rounds(r, w, 60) == Regs(0x56119F19, 0x085EB2FE, 0x484A25C5, 0xC140CFE8, 0x686DA050)
  {
    hide Rounds;
    Next(r, w, 40, Regs(0x6F698F1A, 0xC6FF0CD3, 0xDE5AB7BC, 0x5F6F3CBB, 0x1DA48A85), 0x00000000);
    Next(r, w, 41, Regs(0x78716769, 0x6F698F1A, 0xF1BFC334, 0xDE5AB7BC, 0x5F6F3CBB), 0x0000CC00);
    Next(r, w, 42, Regs(0xFC343A02, 0x78716769, 0x9BDA63C6, 0xF1BFC334, 0xDE5AB7BC), 0x0003C000);
    Next(r, w, 43, Regs(0xEDFCD85B, 0xFC343A02, 0x5E1C59DA, 0x9BDA63C6, 0xF1BFC334), 0x00004380);
    Next(r, w, 44, Regs(0x1E934ACF, 0xEDFCD85B, 0xBF0D0E80, 0x5E1C59DA, 0x9BDA63C6), 0x00000000);
    Next(r, w, 45, Regs(0xFC7BD35F, 0x1E934ACF, 0xFB7F3616, 0xBF0D0E80, 0x5E1C59DA), 0x00078F00);
    Next(r, w, 46, Regs(0x3BD9203B, 0xFC7BD35F, 0xC7A4D2B3, 0xFB7F3616, 0xBF0D0E80), 0x0000FF00);
    Next(r, w, 47, Regs(0xC8CDA3DA, 0x3BD9203B, 0xFF1EF4D7, 0xC7A4D2B3, 0xFB7F3616), 0x00032680);
    Next(r, w, 48, Regs(0xA3EF857E, 0xC8CDA3DA, 0xCEF6480E, 0xFF1EF4D7, 0xC7A4D2B3), 0x000F0000);
    Next(r, w, 49, Regs(0xA39F2041, 0xA3EF857E, 0xB23368F6, 0xCEF6480E, 0xFF1EF4D7), 0x0000F000);
    Next(r, w, 50, Regs(0xA516F265, 0xA39F2041, 0xA8FBE15F, 0xB23368F6, 0xCEF6480E), 0x00003300);
    Next(r, w, 51, Regs(0xA3ABE4F5, 0xA516F265, 0x68E7C810, 0xA8FBE15F, 0xB23368F6), 0x001EFF00);
    Next(r, w, 52, Regs(0x5FE2A3DB, 0xA3ABE4F5, 0x6945BC99, 0x68E7C810, 0xA8FBE15F), 0x00000000);
    Next(r, w, 53, Regs(0x9E540637, 0x5FE2A3DB, 0x68EAF93D, 0x6945BC99, 0x68E7C810), 0x000CB800);
    Next(r, w, 54, Regs(0x2C73BD78, 0x9E540637, 0xD7F8A8F6, 0x68EAF93D, 0x6945BC99), 0x003C0000);
    Next(r, w, 55, Regs(0x660DD0B1, 0x2C73BD78, 0xE795018D, 0xD7F8A8F6, 0x68EAF93D), 0x00040B00);
    Next(r, w, 56, Regs(0xA1B68141, 0x660DD0B1, 0x0B1CEF5E, 0xE795018D, 0xD7F8A8F6), 0x0000F000);
    Next(r, w, 57, Regs(0x05033FA3, 0xA1B68141, 0x5983742C, 0x0B1CEF5E, 0xE795018D), 0x0078FF00);
    Next(r, w, 58, Regs(0x21289715, 0x05033FA3, 0x686DA050, 0x5983742C, 0x0B1CEF5E), 0x000FF000);
    Next(r, w, 59, Regs(0x085EB2FE, 0x21289715, 0xC140CFE8, 0x686DA050, 0x5983742C), 0x00338700);
  }

  lemma SecondRounds3(r: Regs, w: seq<Word>)
    requires |w| == 80 && Rounds(r, w, 60) == Regs(0x56119F19, 0x085EB2FE, 0x484A25C5, 0xC140CFE8, 0x686DA050)
    requires SecondRow3(w) && SecondRow4(w)
    ensures Rounds(r, w, 80) == Regs(0x57AAD805, 0x4D3B0DAC, 0xD27A4A0D, 0x74C040CD, 0x54782008)
  {
    hide Rounds;
    Next(r, w, 60, Regs(0x56119F19, 0x085EB2FE, 0x484A25C5, 0xC140CFE8, 0x686DA050), 0x00F00000);
    Next(r, w, 61, Regs(0x77489E23, 0x56119F19, 0x8217ACBF, 0x484A25C5, 0xC140CFE8), 0x000FC300);
    Next(r, w, 62, Regs(0x11132F8F, 0x77489E23, 0x558467C6, 0x8217ACBF, 0x484A25C5), 0x0000F000);
    Next(r, w, 63, Regs(0xD5EF1ED7, 0x11132F8F, 0xDDD22788, 0x558467C6, 0x8217ACBF), 0x01EFBB00);
    Next(r, w, 64, Regs(0xA5937450, 0xD5EF1ED7, 0xC444CBE3, 0xDDD22788, 0x558467C6), 0x00000000);
    Next(r, w, 65, Regs(0x9ECFA66C, 0xA5937450, 0xF57BC7B5, 0xC444CBE3, 0xDDD22788), 0x00CC0000);
    Next(r, w, 66, Regs(0x17A22EF7, 0x9ECFA66C, 0x2964DD14, 0xF57BC7B5, 0xC444CBE3), 0x03C0F000);
    Next(r, w, 67, Regs(0xC97F1968, 0x17A22EF7, 0x27B3E99B, 0x2964DD14, 0xF57BC7B5), 0x00438000);
    Next(r, w, 68, Regs(0x097A511C, 0xC97F1968, 0xC5E88BBD, 0x27B3E99B, 0x2964DD14), 0x00000000);
    Next(r, w, 69, Regs(0x4E363DB9, 0x097A511C, 0x325FC65A, 0xC5E88BBD, 0x27B3E99B), 0x078F0000);
    Next(r, w, 70, Regs(0xBF3A7F95, 0x4E363DB9, 0x025E9447, 0x325FC65A, 0xC5E88BBD), 0x00FF0000);
    Next(r, w, 71, Regs(0xF6D1AFEE, 0xBF3A7F95, 0x538D8F6E, 0x025E9447, 0x325FC65A), 0x03269E00);
    Next(r, w, 72, Regs(0xC90888CA, 0xF6D1AFEE, 0x6FCE9FE5, 0x538D8F6E, 0x025E9447), 0x0F000000);
    Next(r, w, 73, Regs(0xC7652EDB, 0xC90888CA, 0xBDB46BFB, 0x6FCE9FE5, 0x538D8F6E), 0x00F0F000);
    Next(r, w, 74, Regs(0x26F99990, 0xC7652EDB, 0xB2422232, 0xBDB46BFB, 0x6FCE9FE5), 0x00333C00);
    Next(r, w, 75, Regs(0xE22B36D1, 0x26F99990, 0xF1D94BB6, 0xB2422232, 0xBDB46BFB), 0x1EFF8800);
    Next(r, w, 76, Regs(0x51E08021, 0xE22B36D1, 0x09BE6664, 0xF1D94BB6, 0xB2422232), 0x00000000);
    Next(r, w, 77, Regs(0xD3010335, 0x51E08021, 0x788ACDB4, 0x09BE6664, 0xF1D94BB6), 0x0CB88800);
    Next(r, w, 78, Regs(0x49E92837, 0xD3010335, 0x54782008, 0x788ACDB4, 0x09BE6664), 0x3C00F000);
    Next(r, w, 79, Regs(0x4D3B0DAC, 0x49E92837, 0x74C040CD, 0x54782008, 0x788ACDB4), 0x040A4A00);
  }

  lemma SecondBlock(b: Block)
    requires WordOf(b, 0) == 0x00000000 && WordOf(b, 1) == 0x00000000 && WordOf(b, 2) == 0x00000000 && WordOf(b, 3) == 0x00000000
    requires WordOf(b, 4) == 0x00000000 && WordOf(b, 5) == 0x00000000 && WordOf(b, 6) == 0x00000000 && WordOf(b, 7) == 0x00000000
    requires WordOf(b, 8) == 0x00000000 && WordOf(b, 9) == 0x00000000 && WordOf(b, 10) == 0x00000000 && WordOf(b, 11) == 0x00000000
    requires WordOf(b, 12) == 0x00000000 && WordOf(b, 13) == 0x00000000 && WordOf(b, 14) == 0x00000000 && WordOf(b, 15) == 0x000001E0
    ensures Compress(Regs(0x5BCF7727, 0x7327416A, 0xBE7BFBF9, 0x5A781878, 0x5E46A4E2), b) == Regs(0xB37A4F2C, 0xC0624F16, 0x90F64606, 0xCF385945, 0xB2BEC4EA)
  {
    hide Rounds, Schedule, WordOf, Follows;
    var r, w := Regs(0x5BCF7727, 0x7327416A, 0xBE7BFBF9, 0x5A781878, 0x5E46A4E2), Schedule(b, 80);
    ScheduleFollows(b);
    assert SecondRow0(w);
    SecondSchedule1(w);
    SecondSchedule2(w);
    SecondSchedule3(w);
    SecondSchedule4(w);
    NoRounds(r, w);
    SecondRounds0(r, w);
    SecondRounds1(r, w);
    SecondRounds2(r, w);
    SecondRounds3(r, w);
  }

  // ----------------------------------------------------------------- the message

  const P0: seq<Byte> := [0x64, 0x47, 0x68, 0x6C, 0x49, 0x48, 0x4E, 0x68, 0x62, 0x58, 0x42, 0x73]
  const P1: seq<Byte> := [0x5A, 0x53, 0x42, 0x75, 0x62, 0x32, 0x35, 0x6A, 0x5A, 0x51, 0x3D, 0x3D]
  const P2: seq<Byte> := [0x32, 0x35, 0x38, 0x45, 0x41, 0x46, 0x41, 0x35, 0x2D, 0x45, 0x39, 0x31]
  const P3: seq<Byte> := [0x34, 0x2D, 0x34, 0x37, 0x44, 0x41, 0x2D, 0x39, 0x35, 0x43, 0x41, 0x2D]
  const P4: seq<Byte> := [0x43, 0x35, 0x41, 0x42, 0x30, 0x44, 0x43, 0x38, 0x35, 0x42, 0x31, 0x31]

  lemma ThreeWords(b: Block, t: nat, p: seq<Byte>)
    requires t + 3 <= 16 && |p| == 12 && b[4 * t..4 * t + 12] == p
    ensures WordOf(b, t) == Four(p[0], p[1], p[2], p[3])
    ensures WordOf(b, t + 1) == Four(p[4], p[5], p[6], p[7])
    ensures WordOf(b, t + 2) == Four(p[8], p[9], p[10], p[11])
  {
    hide Four;
    assert forall i :: 0 <= i < 12 ==> b[4 * t + i] == p[i];
  }

  lemma Codes0()
    ensures Codes("dGhlIHNhbXBs") == P0
  {
    hide Low;
    LowByte('d' as nat, 0x64); LowByte('G' as nat, 0x47); LowByte('h' as nat, 0x68);
    LowByte('l' as nat, 0x6C); LowByte('I' as nat, 0x49); LowByte('H' as nat, 0x48);
    LowByte('N' as nat, 0x4E); LowByte('h' as nat, 0x68); LowByte('b' as nat, 0x62);
    LowByte('X' as nat, 0x58); LowByte('B' as nat, 0x42); LowByte('s' as nat, 0x73);
  }

  lemma Words0(b: Block)
    requires b[0..12] == P0
    ensures WordOf(b, 0) == 0x6447686C && WordOf(b, 1) == 0x49484E68 && WordOf(b, 2) == 0x62584273
  {
    assert Four(0x64, 0x47, 0x68, 0x6C) == 0x6447686C;
    assert Four(0x49, 0x48, 0x4E, 0x68) == 0x49484E68;
    assert Four(0x62, 0x58, 0x42, 0x73) == 0x62584273;
    hide Four;
    ThreeWords(b, 0, P0);
  }

  lemma Codes1()
    ensures Codes("ZSBub25jZQ==") == P1
  {
    hide Low;
    LowByte('Z' as nat, 0x5A); LowByte('S' as nat, 0x53); LowByte('B' as nat, 0x42);
    LowByte('u' as nat, 0x75); LowByte('b' as nat, 0x62); LowByte('2' as nat, 0x32);
    LowByte('5' as nat, 0x35); LowByte('j' as nat, 0x6A); LowByte('Z' as nat, 0x5A);
    LowByte('Q' as nat, 0x51); LowByte('=' as nat, 0x3D); LowByte('=' as nat, 0x3D);
  }

  lemma Words1(b: Block)
    requires b[12..24] == P1
    ensures WordOf(b, 3) == 0x5A534275 && WordOf(b, 4) == 0x6232356A && WordOf(b, 5) == 0x5A513D3D
  {
    assert Four(0x5A, 0x53, 0x42, 0x75) == 0x5A534275;
    assert Four(0x62, 0x32, 0x35, 0x6A) == 0x6232356A;
    assert Four(0x5A, 0x51, 0x3D, 0x3D) == 0x5A513D3D;
    hide Four;
    ThreeWords(b, 3, P1);
  }

  lemma Codes2()
    ensures Codes("258EAFA5-E91") == P2
  {
    hide Low;
    LowByte('2' as nat, 0x32); LowByte('5' as nat, 0x35); LowByte('8' as nat, 0x38);
    LowByte('E' as nat, 0x45); LowByte('A' as nat, 0x41); LowByte('F' as nat, 0x46);
    LowByte('A' as nat, 0x41); LowByte('5' as nat, 0x35); LowByte('-' as nat, 0x2D);
    LowByte('E' as nat, 0x45); LowByte('9' as nat, 0x39); LowByte('1' as nat, 0x31);
  }

  lemma Words2(b: Block)
    requires b[24..36] == P2
    ensures WordOf(b, 6) == 0x32353845 && WordOf(b, 7) == 0x41464135 && WordOf(b, 8) == 0x2D453931
  {
    assert Four(0x32, 0x35, 0x38, 0x45) == 0x32353845;
    assert Four(0x41, 0x46, 0x41, 0x35) == 0x41464135;
    assert Four(0x2D, 0x45, 0x39, 0x31) == 0x2D453931;
    hide Four;
    ThreeWords(b, 6, P2);
  }

  lemma Codes3()
    ensures Codes("4-47DA-95CA-") == P3
  {
    hide Low;
    LowByte('4' as nat, 0x34); LowByte('-' as nat, 0x2D); LowByte('4' as nat, 0x34);
    LowByte('7' as nat, 0x37); LowByte('D' as nat, 0x44); LowByte('A' as nat, 0x41);
    LowByte('-' as nat, 0x2D); LowByte('9' as nat, 0x39); LowByte('5' as nat, 0x35);
    LowByte('C' as nat, 0x43); LowByte('A' as nat, 0x41); LowByte('-' as nat, 0x2D);
  }

  lemma Words3(b: Block)
    requires b[36..48] == P3
    ensures WordOf(b, 9) == 0x342D3437 && WordOf(b, 10) == 0x44412D39 && WordOf(b, 11) == 0x3543412D
  {
    assert Four(0x34, 0x2D, 0x34, 0x37) == 0x342D3437;
    assert Four(0x44, 0x41, 0x2D, 0x39) == 0x44412D39;
    assert Four(0x35, 0x43, 0x41, 0x2D) == 0x3543412D;
    hide Four;
    ThreeWords(b, 9, P3);
  }

  lemma Codes4()
    ensures Codes("C5AB0DC85B11") == P4
  {
    hide Low;
    LowByte('C' as nat, 0x43); LowByte('5' as nat, 0x35); LowByte('A' as nat, 0x41);
    LowByte('B' as nat, 0x42); LowByte('0' as nat, 0x30); LowByte('D' as nat, 0x44);
    LowByte('C' as nat, 0x43); LowByte('8' as nat, 0x38); LowByte('5' as nat, 0x35);
    LowByte('B' as nat, 0x42); LowByte('1' as nat, 0x31); LowByte('1' as nat, 0x31);
  }

  lemma Words4(b: Block)
    requires b[48..60] == P4
    ensures WordOf(b, 12) == 0x43354142 && WordOf(b, 13) == 0x30444338 && WordOf(b, 14) == 0x35423131
  {
    assert Four(0x43, 0x35, 0x41, 0x42) == 0x43354142;
    assert Four(0x30, 0x44, 0x43, 0x38) == 0x30444338;
    assert Four(0x35, 0x42, 0x31, 0x31) == 0x35423131;
    hide Four;
    ThreeWords(b, 12, P4);
  }

  lemma FirstWords(b: Block)
    requires b == P0 + P1 + P2 + P3 + P4 + [0x80] + Zeros(3)
    ensures WordOf(b, 0) == 0x6447686C && WordOf(b, 1) == 0x49484E68 && WordOf(b, 2) == 0x62584273 && WordOf(b, 3) == 0x5A534275
    ensures WordOf(b, 4) == 0x6232356A && WordOf(b, 5) == 0x5A513D3D && WordOf(b, 6) == 0x32353845 && WordOf(b, 7) == 0x41464135
    ensures WordOf(b, 8) == 0x2D453931 && WordOf(b, 9) == 0x342D3437 && WordOf(b, 10) == 0x44412D39 && WordOf(b, 11) == 0x3543412D
    ensures WordOf(b, 12) == 0x43354142 && WordOf(b, 13) == 0x30444338 && WordOf(b, 14) == 0x35423131 && WordOf(b, 15) == 0x80000000
  {
    hide WordOf;
    Words0(b);
    Words1(b);
    Words2(b);
    Words3(b);
    Words4(b);
    PadWord(b);
  }

  lemma PadWord(b: Block)
    requires b[60..] == [0x80] + Zeros(3)
    ensures WordOf(b, 15) == 0x80000000
  {
    assert Four(0x80, 0, 0, 0) == 0x80000000;
    hide Four;
    assert b[60..][0] == 0x80 && b[60..][1] == b[60..][2] == b[60..][3] == 0;
  }

  lemma SecondWords(b: Block)
    requires b == Zeros(56) + [0, 0, 0, 0, 0, 0, 0x01, 0xE0]
    ensures WordOf(b, 15) == 0x1E0 && forall t :: 0 <= t < 15 ==> WordOf(b, t) == 0
  {
    assert Four(0, 0, 0, 0) == 0 && Four(0, 0, 0x01, 0xE0) == 0x1E0;
    hide Four;
    assert forall i :: 0 <= i < 56 ==> b[i] == 0;
    assert b[56..] == [0, 0, 0, 0, 0, 0, 0x01, 0xE0];
  }

  lemma SampleDigest()
    ensures Digest(P0 + P1 + P2 + P3 + P4) == Regs(0xB37A4F2C, 0xC0624F16, 0x90F64606, 0xCF385945, 0xB2BEC4EA)
  {
    hide Compress, Fold, Digest, BigEndian;
    var m := P0 + P1 + P2 + P3 + P4;
    var first: Block, last: Block := m + [0x80] + Zeros(3), Zeros(56) + Length(m);
    LengthBytes(480, 0x01, 0xE0);
    assert [] + m == m;
    DigestLong([], m);
    FoldNothing(INITIAL);
    FirstWords(first);
    FirstBlock(first);
    SecondWords(last);
    SecondBlock(last);
  }

  // ----------------------------------------------------------------- the answer

  const DIGEST: seq<Byte> := [
    0xB3, 0x7A, 0x4F, 0x2C, 0xC0, 0x62, 0x4F, 0x16, 0x90, 0xF6,
    0x46, 0x06, 0xCF, 0x38, 0x59, 0x45, 0xB2, 0xBE, 0xC4, 0xEA]

  lemma SampleOctets()
    ensures Octets([0xB37A4F2C, 0xC0624F16, 0x90F64606, 0xCF385945, 0xB2BEC4EA]) == DIGEST
  {
    FiveFours();
    hide Four, Octets;
    WordOctets(0xB37A4F2C, 0xB3, 0x7A, 0x4F, 0x2C);
    WordOctets(0xC0624F16, 0xC0, 0x62, 0x4F, 0x16);
    WordOctets(0x90F64606, 0x90, 0xF6, 0x46, 0x06);
    WordOctets(0xCF385945, 0xCF, 0x38, 0x59, 0x45);
    WordOctets(0xB2BEC4EA, 0xB2, 0xBE, 0xC4, 0xEA);
    FiveOctets([0xB37A4F2C, 0xC0624F16, 0x90F64606, 0xCF385945, 0xB2BEC4EA]);
  }

  lemma FiveFours()
    ensures Four(0xB3, 0x7A, 0x4F, 0x2C) == 0xB37A4F2C
    ensures Four(0xC0, 0x62, 0x4F, 0x16) == 0xC0624F16
    ensures Four(0x90, 0xF6, 0x46, 0x06) == 0x90F64606
    ensures Four(0xCF, 0x38, 0x59, 0x45) == 0xCF385945
    ensures Four(0xB2, 0xBE, 0xC4, 0xEA) == 0xB2BEC4EA
  {
  }

  lemma FiveOctets(w: seq<Word>)
    requires |w| == 5
    ensures Octets(w) == Octets([w[0]]) + Octets([w[1]]) + Octets([w[2]]) + Octets([w[3]]) + Octets([w[4]])
  {
    hide ByteOf;
    OctetsMore(w[..4], w[4]);
    OctetsMore(w[..3], w[3]);
    OctetsMore(w[..2], w[2]);
    OctetsMore([w[0]], w[1]);
    assert w == w[..4] + [w[4]] && w[..4] == w[..3] + [w[3]] && w[..3] == w[..2] + [w[2]] && w[..2] == [w[0]] + [w[1]];
  }

  lemma FourBack(a: Byte, b: Byte, c: Byte, d: Byte)
    ensures var w := Four(a, b, c, d);
            ByteOf(w, 3) == a && ByteOf(w, 2) == b && ByteOf(w, 1) == c && ByteOf(w, 0) == d
  {
  }

  lemma WordOctets(w: Word, a: Byte, b: Byte, c: Byte, d: Byte)
    requires w == Four(a, b, c, d)
    ensures Octets([w]) == [a, b, c, d]
  {
    hide ByteOf, Four;
    FourBack(a, b, c, d);
    assert [w][..0] == [] && Octets([]) == [];
  }

  lemma OctetsMore(words: seq<Word>, w: Word)
    ensures Octets(words + [w]) == Octets(words) + Octets([w])
  {
    hide ByteOf;
    assert (words + [w])[..|words|] == words && [w][..0] == [] && Octets([]) == [];
  }

  lemma QuadText(x: Byte, y: Byte, z: Byte, q: string)
    requires |q| == 4
    requires q[0] as nat == Base64.CodeOf(Base64.S0(x) as nat) && q[1] as nat == Base64.CodeOf(Base64.S1(x, y) as nat)
    requires q[2] as nat == Base64.CodeOf(Base64.S2(y, z) as nat) && q[3] as nat == Base64.CodeOf(Base64.S3(z) as nat)
    ensures Base64.Quad(x, y, z) == q
  {
    hide Base64.CodeOf, Base64.S0, Base64.S1, Base64.S2, Base64.S3, Base64.Quad;
    Base64.QuadCodes(x, y, z);
  }

  lemma TailText(x: Byte, y: Byte, q: string)
    requires |q| == 4 && q == Base64.Quad(x, y, 0)
    ensures Base64.Encode([x, y]) == q[..3] + "="
  {
    hide Base64.Quad;
  }

  /** A group more in front. */
  lemma GroupText(x: Byte, y: Byte, z: Byte, q: string, b: seq<Byte>)
    requires q == Base64.Quad(x, y, z)
    ensures Base64.Encode([x, y, z] + b) == q + Base64.Encode(b)
  {
    hide Base64.Quad, Base64.Encode;
    Base64.EncodeGroup([x, y, z] + b);
    assert ([x, y, z] + b)[3..] == b;
  }

  lemma SampleQuads()
    ensures Base64.Quad(0xB3, 0x7A, 0x4F) == "s3pP"
    ensures Base64.Quad(0x2C, 0xC0, 0x62) == "LMBi"
    ensures Base64.Quad(0x4F, 0x16, 0x90) == "TxaQ"
    ensures Base64.Quad(0xF6, 0x46, 0x06) == "9kYG"
    ensures Base64.Quad(0xCF, 0x38, 0x59) == "zzhZ"
    ensures Base64.Quad(0x45, 0xB2, 0xBE) == "RbK+"
    ensures Base64.Quad(0xC4, 0xEA, 0x00) == "xOoA"
  {
    hide Base64.Quad;
    QuadText(0xB3, 0x7A, 0x4F, "s3pP");
    QuadText(0x2C, 0xC0, 0x62, "LMBi");
    QuadText(0x4F, 0x16, 0x90, "TxaQ");
    QuadText(0xF6, 0x46, 0x06, "9kYG");
    QuadText(0xCF, 0x38, 0x59, "zzhZ");
    QuadText(0x45, 0xB2, 0xBE, "RbK+");
    QuadText(0xC4, 0xEA, 0x00, "xOoA");
  }

  lemma SampleText()
    ensures Base64.Encode(DIGEST) == "s3pPLMBiTxaQ9kYGzzhZRbK+xOo="
  {
    hide Base64.Encode, Base64.Quad;
    SampleQuads();
    var d6: seq<Byte> := [0xC4, 0xEA];
    TailText(0xC4, 0xEA, "xOoA");
    var d5: seq<Byte> := [0x45, 0xB2, 0xBE] + d6;
    GroupText(0x45, 0xB2, 0xBE, "RbK+", d6);
    var d4: seq<Byte> := [0xCF, 0x38, 0x59] + d5;
    GroupText(0xCF, 0x38, 0x59, "zzhZ", d5);
    var d3: seq<Byte> := [0xF6, 0x46, 0x06] + d4;
    GroupText(0xF6, 0x46, 0x06, "9kYG", d4);
    var d2: seq<Byte> := [0x4F, 0x16, 0x90] + d3;
    GroupText(0x4F, 0x16, 0x90, "TxaQ", d3);
    var d1: seq<Byte> := [0x2C, 0xC0, 0x62] + d2;
    GroupText(0x2C, 0xC0, 0x62, "LMBi", d2);
    var d0: seq<Byte> := [0xB3, 0x7A, 0x4F] + d1;
    GroupText(0xB3, 0x7A, 0x4F, "s3pP", d1);
    assert d0 == DIGEST;
  }

  lemma CodesJoin(s: string, t: string)
    ensures Codes(s + t) == Codes(s) + Codes(t)
  {
  }

  lemma SampleMessage()
    ensures Codes("dGhlIHNhbXBsZSBub25jZQ==") + Codes(GUID) == P0 + P1 + P2 + P3 + P4
  {
    hide Codes;
    Codes0();
    Codes1();
    Codes2();
    Codes3();
    Codes4();
    CodesJoin("dGhlIHNhbXBs", "ZSBub25jZQ==");
    CodesJoin("258EAFA5-E91", "4-47DA-95CA-");
    CodesJoin("258EAFA5-E914-47DA-95CA-", "C5AB0DC85B11");
    assert "dGhlIHNhbXBs" + "ZSBub25jZQ==" == "dGhlIHNhbXBsZSBub25jZQ==";
    assert "258EAFA5-E91" + "4-47DA-95CA-" == "258EAFA5-E914-47DA-95CA-";
    assert "258EAFA5-E914-47DA-95CA-" + "C5AB0DC85B11" == GUID;
  }

  /** To this key a server answers this. */
  lemma Sample()
    ensures Accept(Codes("dGhlIHNhbXBsZSBub25jZQ==")) == "s3pPLMBiTxaQ9kYGzzhZRbK+xOo="
  {
    hide Digest, Base64.Encode, Octets, Codes;
    SampleMessage();
    SampleDigest();
    SampleOctets();
    SampleText();
  }
}
