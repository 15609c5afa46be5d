/** Frames byte by byte: the layout of section 5.2 of RFC 6455, its masking, and the
    frames of its section 5.7. */
module FrameBytes {
  import opened Bytes
  import opened WebSockets

  // -------------------------------------------------------------------- the header

  /** The first two bytes: two flags, the opcode and the length field. */
  predicate Opens(e: seq<Byte>, opcode: Byte, last: bool, masked: bool)
    requires |e| >= 2
  {
    e[0] == (if last then 0x80 else 0) | opcode && e[1] & 0x80 == if masked then 0x80 else 0
  }

  /** Eight bytes as a number, the first one highest. */
  function Weighed(e: seq<Byte>): nat
    requires |e| == 8
  {
    0x100_0000_0000_0000 * (e[0] as nat) + 0x1_0000_0000_0000 * (e[1] as nat) + 0x100_0000_0000 * (e[2] as nat)
    + 0x1_0000_0000 * (e[3] as nat) + 0x100_0000 * (e[4] as nat) + 0x1_0000 * (e[5] as nat) + 0x100 * (e[6] as nat) + (e[7] as nat)
  }

  /** The length: in seven bits, in two bytes behind 126, or in eight behind 127. */
  predicate Tells(e: seq<Byte>, n: nat)
    requires |e| >= 2
  {
    var field := e[1] & 0x7F;
    if n <= 125 then field as nat == n
    else if n <= 65535 then |e| >= 4 && field == 126 && 0x100 * (e[2] as nat) + (e[3] as nat) == n
    else |e| >= 10 && field == 127 && Weighed(e[2..10]) == n
  }

  /** Where the payload begins. */
  function Start(n: nat, masked: bool): nat {
    (if n <= 125 then 2 else if n <= 65535 then 4 else 10) + (if masked then 4 else 0)
  }

  lemma StartIs(n: nat, masked: bool)
    ensures HeaderSize(n, masked) == Start(n, masked)
  {
    LengthFieldIs(n);
  }

  lemma OpenBytes(opcode: Byte, last: bool, masked: bool, length: Byte)
    requires length <= 127
    ensures First(Flag(last), opcode) == (if last then 0x80 else 0) | opcode
    ensures Second(Flag(masked), length) & 0x80 == if masked then 0x80 else 0
    ensures Second(Flag(masked), length) & 0x7F == length
  {
  }

  lemma TwoWeighed(s: seq<Byte>)
    requires |s| == 2
    ensures FromBig(s) == 0x100 * (s[0] as nat) + (s[1] as nat)
  {
    TwoBytes(s[0], s[1]);
    assert s == [s[0], s[1]];
  }

  lemma FourWeighed(s: seq<Byte>)
    requires |s| == 4
    ensures FromBig(s) == 0x100_0000 * (s[0] as nat) + 0x1_0000 * (s[1] as nat) + 0x100 * (s[2] as nat) + (s[3] as nat)
  {
    TwoWeighed(s[..2]);
    FromBigSnoc(s[..2], s[2]);
    FromBigSnoc(s[..3], s[3]);
    assert s[..2] + [s[2]] == s[..3] && s[..3] + [s[3]] == s;
  }

  lemma FourMore(s: seq<Byte>, t: seq<Byte>)
    requires |t| == 4
    ensures FromBig(s + t) == 0x1_0000_0000 * FromBig(s) + FromBig(t)
  {
    hide FromBig;
    FourWeighed(t);
    FourPushed(s, t[0], t[1], t[2], t[3]);
    assert s + t == s + [t[0]] + [t[1]] + [t[2]] + [t[3]];
  }

  lemma FourPushed(s: seq<Byte>, a: Byte, b: Byte, c: Byte, d: Byte)
    ensures FromBig(s + [a] + [b] + [c] + [d])
         == 0x1_0000_0000 * FromBig(s) + 0x100_0000 * (a as nat) + 0x1_0000 * (b as nat) + 0x100 * (c as nat) + (d as nat)
  {
    hide FromBig;
    FromBigSnoc(s, a);
    FromBigSnoc(s + [a], b);
    FromBigSnoc(s + [a] + [b], c);
    FromBigSnoc(s + [a] + [b] + [c], d);
  }

  lemma EightWeighed(s: seq<Byte>)
    requires |s| == 8
    ensures FromBig(s) == Weighed(s)
  {
    hide FromBig;
    FourMore(s[..4], s[4..]);
    assert s[..4] + s[4..] == s;
    FourWeighed(s[..4]);
    FourWeighed(s[4..]);
  }

  // ---------------------------------------------------------------------- made frames

  /** Every byte of a frame that make writes. */
  ghost predicate LaidOut(e: seq<Byte>, opcode: Byte, last: bool, key: Option<MaskKey>, payload: seq<Byte>) {
    var n := |payload|;
    var at := Start(n, key.Some?);
    && |e| == at + n && Opens(e, opcode, last, key.Some?) && Tells(e, n)
    && (key.Some? ==> forall i :: 0 <= i < 4 ==> e[at - 4 + i] == key.value[i])
    && forall i :: 0 <= i < n ==> e[at + i] == if key.Some? then payload[i] ^ key.value[i % 4] else payload[i]
  }

  lemma LengthTold(n: nat, ext: seq<Byte>)
    requires n < TWO64 && ext == Extended(n)
    ensures 125 < n <= 65535 ==> |ext| == 2 && 0x100 * (ext[0] as nat) + (ext[1] as nat) == n
    ensures n > 65535 ==> |ext| == 8 && Weighed(ext) == n
  {
    hide Weighed, FromBig, BigEndian;
    LengthFieldIs(n);
    Pow256Values();
    if n > 125 {
      FromBigEndian(n, ExtSize(LengthField(n)));
      if n <= 65535 { TwoWeighed(ext); } else { EightWeighed(ext); }
    }
  }

  lemma FieldTold(e: seq<Byte>, masked: bool, n: nat)
    requires |e| >= 2 && e[1] == Second(Flag(masked), LengthField(n)) && n < TWO64
    requires |e| >= 2 + ExtSize(LengthField(n)) && e[2..2 + ExtSize(LengthField(n))] == Extended(n)
    ensures Tells(e, n)
  {
    hide Second, Weighed, Extended, LengthField;
    LengthFieldIs(n);
    OpenBytes(0, false, masked, LengthField(n));
    LengthTold(n, Extended(n));
    if LengthField(n) > 126 { assert n > 65535; }
    FieldValue(e[1] & 0x7F, n);
  }

  lemma FieldOpens(e: seq<Byte>, opcode: Byte, last: bool, masked: bool, n: nat)
    requires |e| >= 2 && e[0] == First(Flag(last), opcode) && e[1] == Second(Flag(masked), LengthField(n))
    ensures Opens(e, opcode, last, masked)
  {
    hide First, Second, LengthField;
    LengthFieldIs(n);
    OpenBytes(opcode, last, masked, LengthField(n));
  }

  lemma FieldValue(field: Byte, n: nat)
    requires field == LengthField(n)
    ensures n <= 125 ==> field as nat == n
    ensures 125 < n <= 65535 ==> field == 126
    ensures n > 65535 ==> field == 127
  {
    LengthFieldIs(n);
  }

  lemma HeaderBytes(opcode: Byte, last: bool, key: Option<MaskKey>, payload: seq<Byte>)
    requires |payload| < TWO64
    ensures var e := Encode(opcode, last, key, payload);
            |e| >= 2 && Opens(e, opcode, last, key.Some?) && Tells(e, |payload|)
  {
    hide Encode, First, Second, Masked, Extended, Tells, Opens, LengthField;
    var e, n := Encode(opcode, last, key, payload), |payload|;
    Layout(opcode, last, key, payload);
    FieldOpens(e, opcode, last, key.Some?, n);
    FieldTold(e, key.Some?, n);
  }

  /** What lies behind a place lies behind it byte by byte. */
  lemma FromPlace(e: seq<Byte>, at: nat, part: seq<Byte>)
    requires at + |part| <= |e| && e[at..at + |part|] == part
    ensures forall i :: 0 <= i < |part| ==> e[at + i] == part[i]
  {
    forall i | 0 <= i < |part|
      ensures e[at + i] == part[i]
    {
      assert e[at..at + |part|][i] == e[at + i];
    }
  }

  lemma MaskedFrom(e: seq<Byte>, at: nat, payload: seq<Byte>, key: MaskKey)
    requires at + |payload| <= |e| && e[at..at + |payload|] == Masked(payload, key)
    ensures forall i :: 0 <= i < |payload| ==> e[at + i] == payload[i] ^ key[i % 4]
  {
    hide Masked;
    FromPlace(e, at, Masked(payload, key));
    forall i | 0 <= i < |payload|
      ensures e[at + i] == payload[i] ^ key[i % 4]
    {
      MaskedAt(payload, key, i);
    }
  }

  /** Section 5.2 and 5.3: what make writes, for every message. */
  lemma MadeBytes(opcode: Byte, last: bool, key: Option<MaskKey>, payload: seq<Byte>)
    requires |payload| < TWO64
    ensures LaidOut(Encode(opcode, last, key, payload), opcode, last, key, payload)
  {
    hide Encode, First, Second, Opens, Tells, Masked, HeaderSize, Extended;
    var e, at := Encode(opcode, last, key, payload), Start(|payload|, key.Some?);
    StartIs(|payload|, key.Some?);
    Layout(opcode, last, key, payload);
    HeaderBytes(opcode, last, key, payload);
    if key.Some? {
      FromPlace(e, at - 4, key.value);
      MaskedFrom(e, at, payload, key.value);
    } else {
      FromPlace(e, at, payload);
    }
  }

  // -------------------------------------------------------------------- parsed frames

  /** What parse takes from a buffer, for a length that fits: the flags, and every
      byte of the payload. */
  ghost predicate Taken(buf: seq<Byte>, ws: WebSocket)
    requires |buf| >= 2
  {
    var masked := buf[1] & 0x80 == 0x80;
    var n := ws.payloadSize;
    var at := ws.payloadPos;
    && ws.fin == (if buf[0] & 0x80 == 0x80 then 1 else 0) && ws.opcode == buf[0] & 0x0F
    && ws.mask == (if masked then 1 else 0)
    && |ws.buffer| == at + n <= |buf|
    && (masked ==> at >= 4)
    && (forall i :: 0 <= i < at ==> ws.buffer[i] == buf[i])
    && (forall i :: at <= i < at + n ==> ws.buffer[i] == if masked then buf[i] ^ buf[at - 4 + (i - at) % 4] else buf[i])
  }

  lemma TopBitIs(b: Byte)
    ensures FinOf(b) == (if b & 0x80 == 0x80 then 1 else 0)
  {
  }

  /** For every buffer that any implementation may send. */
  lemma ParsedBytes(buf: seq<Byte>)
    requires Decode(buf).Frame? && WholeHeader(buf) && !Wraps(buf)
    ensures Taken(buf, Decode(buf).ws)
  {
    hide Masked, FinOf, ExtSize, FromBig, LengthOf, OpcodeOf;
    var pos, end := PosOf(buf[1]), EndOf(buf);
    TopBitIs(buf[0]);
    TopBitIs(buf[1]);
    OpcodeIs(buf[0]);
    if FinOf(buf[1]) == 1 {
      UnmaskedBytes(buf, pos, end);
    }
  }

  lemma OpcodeIs(b: Byte)
    ensures OpcodeOf(b) == b & 0x0F
  {
  }

  lemma UnmaskedBytes(buf: seq<Byte>, pos: nat, end: nat)
    requires 4 <= pos <= end <= |buf|
    ensures var buffer := buf[..pos] + Masked(buf[pos..end], buf[pos - 4..pos]);
            && (forall i :: 0 <= i < pos ==> buffer[i] == buf[i])
            && (forall i :: pos <= i < end ==> buffer[i] == buf[i] ^ buf[pos - 4 + (i - pos) % 4])
  {
    hide Masked;
    forall i | pos <= i < end
      ensures (buf[..pos] + Masked(buf[pos..end], buf[pos - 4..pos]))[i] == buf[i] ^ buf[pos - 4 + (i - pos) % 4]
    {
      MaskedAt(buf[pos..end], buf[pos - 4..pos], i - pos);
    }
  }

  lemma MaskedAt(payload: seq<Byte>, key: MaskKey, i: nat)
    requires i < |payload|
    ensures Masked(payload, key)[i] == payload[i] ^ key[i % 4]
  {
  }

  /** Where the payload begins and how long it is. */
  lemma ParsedPlace(buf: seq<Byte>)
    requires Decode(buf).Frame?
    ensures var ws := Decode(buf).ws;
            && ws.payloadPos == (if buf[1] & 0x7F <= 125 then 2 else if buf[1] & 0x7F == 126 then 4 else 10)
                               + (if buf[1] & 0x80 == 0x80 then 4 else 0)
            && ws.payloadSize == (if buf[1] & 0x7F <= 125 then (buf[1] & 0x7F) as nat
                                 else if buf[1] & 0x7F == 126 then 0x100 * (buf[2] as nat) + (buf[3] as nat)
                                 else Weighed(buf[2..10]))
  {
    TopBitIs(buf[1]);
    if buf[1] & 0x7F == 126 { TwoWeighed(buf[2..4]); }
    if buf[1] & 0x7F > 126 { EightWeighed(buf[2..10]); }
  }

  /** Which of its two exceptions parse throws: the first while the second byte, the
      64-bit length or the key is not there, the second while the payload is not. */
  lemma WhichException(buf: seq<Byte>)
    ensures Decode(buf) == Incomplete(IncompleteHeader) <==>
            || |buf| < 2
            || (buf[1] & 0x7F == 127 && |buf| < 10)
            || (buf[1] & 0x80 == 0x80 && |buf| < (if buf[1] & 0x7F <= 125 then 6 else if buf[1] & 0x7F == 126 then 8 else 14))
  {
    if |buf| >= 2 {
      TopBitIs(buf[1]);
      FlagOrNot(buf[1]);
    }
  }

  /** payload_to_string of a masked frame made here takes the mask off again. */
  lemma StringBytes(ws: WebSocket, i: nat)
    requires ws.Valid() && i < ws.payloadSize
    ensures |PayloadOf(ws)| == ws.payloadSize
    ensures PayloadOf(ws)[i] == if ws.mask == 1 && ws.made then ws.buffer[ws.payloadPos + i] ^ ws.maskKey[i % 4] else ws.buffer[ws.payloadPos + i]
  {
  }

  // --------------------------------------------------- the frames of section 5.7

  const HELLO: seq<Byte> := [0x48, 0x65, 0x6C, 0x6C, 0x6F]

  lemma HelloIsText()
    ensures |HELLO| == |"Hello"| && forall i :: 0 <= i < 5 ==> HELLO[i] as nat == "Hello"[i] as nat
  {
    forall i | 0 <= i < 5
      ensures HELLO[i] as nat == "Hello"[i] as nat
    {
      assert i == 0 || i == 1 || i == 2 || i == 3 || i == 4;
    }
  }

  /** The first two bytes of a frame with a short payload. */
  lemma ShortOpens(e: seq<Byte>, opcode: Byte, last: bool, masked: bool, n: nat, b: Byte)
    requires |e| >= 2 && Opens(e, opcode, last, masked) && Tells(e, n) && n <= 125 && b as nat == n
    ensures e[0] == (if last then 0x80 else 0) | opcode && e[1] == (if masked then 0x80 | b else b)
  {
    ThereAndBack(n, b);
    ThereAndBack(n, e[1] & 0x7F);
    TwoParts(e[1], b);
  }

  lemma TwoParts(c: Byte, b: Byte)
    requires c & 0x7F == b
    ensures c == (c & 0x80) | b
  {
  }

  /** A single-frame unmasked text message, and the same in two fragments. */
  lemma UnmaskedText()
    ensures Encode(1, true, None, HELLO) == [0x81, 0x05, 0x48, 0x65, 0x6C, 0x6C, 0x6F]
    ensures Encode(1, false, None, HELLO[..3]) == [0x01, 0x03, 0x48, 0x65, 0x6C]
    ensures Encode(0, true, None, HELLO[3..]) == [0x80, 0x02, 0x6C, 0x6F]
    ensures |HELLO| == |"Hello"| && forall i :: 0 <= i < 5 ==> HELLO[i] as nat == "Hello"[i] as nat
  {
    hide Encode, Opens, Tells;
    HelloIsText();
    UnmaskedShort(1, true, HELLO, 5);
    UnmaskedShort(1, false, HELLO[..3], 3);
    UnmaskedShort(0, true, HELLO[3..], 2);
    assert HELLO[..3] == [0x48, 0x65, 0x6C] && HELLO[3..] == [0x6C, 0x6F];
  }

  lemma UnmaskedShort(opcode: Byte, last: bool, payload: seq<Byte>, b: Byte)
    requires |payload| <= 125 && b as nat == |payload|
    ensures Encode(opcode, last, None, payload) == [(if last then 0x80 else 0) | opcode, b] + payload
  {
    hide Encode, Opens, Tells;
    var e, first := Encode(opcode, last, None, payload), (if last then 0x80 else 0) | opcode;
    MadeBytes(opcode, last, None, payload);
    ShortOpens(e, opcode, last, false, |payload|, b);
    assert e[0] == first && e[1] == b && |e| == 2 + |payload|;
    Behind(e, payload);
  }

  lemma Behind(e: seq<Byte>, payload: seq<Byte>)
    requires |e| == 2 + |payload| && forall i :: 0 <= i < |payload| ==> e[2 + i] == payload[i]
    ensures e == [e[0], e[1]] + payload
  {
  }

  const KEY: MaskKey := [0x37, 0xFA, 0x21, 0x3D]

  /** The same message masked, and a pong. */
  lemma MaskedText()
    ensures Encode(1, true, Some(KEY), HELLO) == [0x81, 0x85, 0x37, 0xFA, 0x21, 0x3D, 0x7F, 0x9F, 0x4D, 0x51, 0x58]
    ensures Encode(10, true, Some(KEY), HELLO) == [0x8A, 0x85, 0x37, 0xFA, 0x21, 0x3D, 0x7F, 0x9F, 0x4D, 0x51, 0x58]
  {
    hide Encode, Opens, Tells;
    MaskedHello(1);
    MaskedHello(10);
  }

  lemma MaskedHello(opcode: Byte)
    ensures Encode(opcode, true, Some(KEY), HELLO) == [0x80 | opcode, 0x85] + KEY + [0x7F, 0x9F, 0x4D, 0x51, 0x58]
  {
    hide Encode, Opens, Tells;
    var e := Encode(opcode, true, Some(KEY), HELLO);
    MadeBytes(opcode, true, Some(KEY), HELLO);
    ShortOpens(e, opcode, true, true, 5, 5);
    assert e[2 + 0] == KEY[0] && e[2 + 1] == KEY[1] && e[2 + 2] == KEY[2] && e[2 + 3] == KEY[3];
    assert e[6 + 0] == HELLO[0] ^ KEY[0] && e[6 + 1] == HELLO[1] ^ KEY[1] && e[6 + 2] == HELLO[2] ^ KEY[2];
    assert e[6 + 3] == HELLO[3] ^ KEY[3] && e[6 + 4] == HELLO[4] ^ KEY[0];
  }

  /** 256 bytes, and 64 KiB, in one unmasked frame. */
  lemma LongBinary(payload: seq<Byte>)
    ensures |payload| == 0x100 ==> Encode(2, true, None, payload) == [0x82, 0x7E, 0x01, 0x00] + payload
    ensures |payload| == 0x1_0000 ==> Encode(2, true, None, payload) == [0x82, 0x7F, 0, 0, 0, 0, 0, 1, 0, 0] + payload
  {
    LongLengths();
    hide BigEndian;
    assert First(Flag(true), 2) == 0x82 && Second(Flag(false), 126) == 0x7E && Second(Flag(false), 127) == 0x7F;
  }

  lemma LongLengths()
    ensures BigEndian(0x100, 2) == [1, 0] && BigEndian(0x1_0000, 8) == [0, 0, 0, 0, 0, 1, 0, 0]
  {
    LowByte(0, 0);
    LowByte(1, 1);
    LowByte(0x100, 0);
    LowByte(0x1_0000, 0);
    hide Low;
    assert BigEndian(0, 3) == [0, 0, 0];
    assert BigEndian(1, 6) == BigEndian(0, 3) + [0] + [0] + [1];
    assert BigEndian(0x1_0000, 8) == BigEndian(1, 6) + [0] + [0];
  }
}
