/** websocket/WebSocket.{h,cpp}: making and parsing frames, sections 5.2 and 5.3
    of RFC 6455. */
module WebSockets {
  import opened Bytes

  /** The four bytes of mask_key_, as they lie in memory. */
  type MaskKey = k: seq<Byte> | |k| == 4 witness [0, 0, 0, 0]

  const NO_KEY: MaskKey := [0, 0, 0, 0]

  /** The object's fields. */
  datatype WebSocket = WebSocket(
    fin: Byte,
    opcode: Byte,
    mask: Byte,
    maskKey: MaskKey,
    length: Byte,
    payloadPos: nat,
    payloadSize: nat,
    made: bool,
    buffer: seq<Byte>)
  {
    ghost predicate Valid() {
      payloadPos + payloadSize == |buffer|
    }
  }

  datatype Code = IncompleteHeader | IncompletePayload

  /** What parse does: throws one of two exceptions, returns a frame, or (when the
      sum of a 64-bit length and a masked header wraps around) unmasks what lies
      behind the buffer. */
  datatype Outcome = Incomplete(code: Code) | Overrun | Frame(ws: WebSocket)

  // ------------------------------------------------------------- the format

  function ExtSize(length: Byte): nat {
    if length <= 125 then 0 else if length == 126 then 2 else 8
  }

  /** The length field the standard asks for: the shortest that fits. */
  function LengthField(n: nat): Byte {
    if n <= 125 then n as Byte else if n <= 65535 then 126 else 127
  }

  function Flag(b: bool): Byte {
    if b then 1 else 0
  }

  function First(fin: Byte, opcode: Byte): Byte {
    (fin << 7) | opcode
  }

  function Second(mask: Byte, length: Byte): Byte {
    (mask << 7) | length
  }

  function HeaderSize(n: nat, masking: bool): nat {
    2 + ExtSize(LengthField(n)) + (if masking then 4 else 0)
  }

  /** Masking and unmasking: section 5.3. */
  function Masked(payload: seq<Byte>, key: MaskKey): (r: seq<Byte>)
    ensures |r| == |payload|
  {
    seq(|payload|, i requires 0 <= i < |payload| => payload[i] ^ key[i % 4])
  }

  function KeyBytes(key: Option<MaskKey>): seq<Byte> {
    if key.Some? then key.value else []
  }

  function Extended(n: nat): seq<Byte> {
    BigEndian(n, ExtSize(LengthField(n)))
  }

  /** A frame on the wire: section 5.2. */
  function Encode(opcode: Byte, last: bool, key: Option<MaskKey>, payload: seq<Byte>): seq<Byte> {
    [First(Flag(last), opcode), Second(Flag(key.Some?), LengthField(|payload|))]
    + Extended(|payload|)
    + KeyBytes(key)
    + (if key.Some? then Masked(payload, key.value) else payload)
  }

  lemma Unmasked(payload: seq<Byte>, key: MaskKey)
    ensures Masked(Masked(payload, key), key) == payload
  {
    forall i | 0 <= i < |payload|
      ensures (payload[i] ^ key[i % 4]) ^ key[i % 4] == payload[i]
    {
      XorTwice(payload[i], key[i % 4]);
    }
  }

  lemma XorTwice(a: Byte, b: Byte)
    ensures (a ^ b) ^ b == a
  {
  }

  // ------------------------------------------------------------------- decoding

  function FinOf(b: Byte): Byte { (b >> 7) & 0x01 }

  function OpcodeOf(b: Byte): Byte { b & 0x0F }

  function LengthOf(b: Byte): Byte { b & 0x7F }

  function PosOf(b: Byte): nat {
    2 + ExtSize(LengthOf(b)) + (if FinOf(b) == 1 then 4 else 0)
  }

  /** The payload length announced by a buffer that holds the whole length field. */
  function SizeOf(buf: seq<Byte>): nat
    requires |buf| >= 2 && |buf| >= 2 + ExtSize(LengthOf(buf[1]))
  {
    var length := LengthOf(buf[1]);
    if length <= 125 then length as nat else FromBig(buf[2..2 + ExtSize(length)])
  }

  /** The length field and, if there is one, the key are there. */
  predicate WholeHeader(buf: seq<Byte>) {
    |buf| >= 2 && |buf| >= PosOf(buf[1])
  }

  /** Header and payload together have 2^64 bytes or more, so that the code's sum
      of them wraps around. */
  predicate Wraps(buf: seq<Byte>)
    requires WholeHeader(buf)
  {
    PosOf(buf[1]) + SizeOf(buf) >= TWO64
  }

  /** The sum as it comes out: where the code takes the frame to end. */
  function EndOf(buf: seq<Byte>): nat
    requires WholeHeader(buf)
  {
    PosOf(buf[1]) + SizeOf(buf) - (if Wraps(buf) then TWO64 else 0)
  }

  /** parse, whatever lies behind the end of the buffer. */
  function Decode(buf: seq<Byte>): Outcome {
    if |buf| < 2 then Incomplete(IncompleteHeader)
    else
      var ext, pos := ExtSize(LengthOf(buf[1])), PosOf(buf[1]);
      if ext == 8 && |buf| < 10 then Incomplete(IncompleteHeader)
      else if FinOf(buf[1]) == 1 && |buf| < pos then Incomplete(IncompleteHeader)
      else if |buf| < pos then Incomplete(IncompletePayload)
      else if |buf| < EndOf(buf) then Incomplete(IncompletePayload)
      else if FinOf(buf[1]) == 1 && Wraps(buf) then Overrun
      else Frame(FrameOf(buf))
  }

  function FrameOf(buf: seq<Byte>): WebSocket
    requires WholeHeader(buf) && |buf| >= EndOf(buf) && (FinOf(buf[1]) == 1 ==> !Wraps(buf))
  {
    var mask, pos, end := FinOf(buf[1]), PosOf(buf[1]), EndOf(buf);
    var key: MaskKey := if mask == 1 then buf[pos - 4..pos] else NO_KEY;
    WebSocket(FinOf(buf[0]), OpcodeOf(buf[0]), mask, key, LengthOf(buf[1]), pos, SizeOf(buf), false,
              if mask == 1 then buf[..pos] + Masked(buf[pos..end], key) else buf[..end])
  }

  /** payload_to_string: only a masked frame made here is still masked. */
  function PayloadOf(ws: WebSocket): seq<Byte>
    requires ws.Valid()
  {
    var p := ws.buffer[ws.payloadPos..];
    if ws.mask == 1 && ws.made then Masked(p, ws.maskKey) else p
  }

  // ------------------------------------------------------------ what a frame is

  lemma SliceStays(buf: seq<Byte>, more: seq<Byte>, i: nat, j: nat)
    requires i <= j <= |buf|
    ensures (buf + more)[i..j] == buf[i..j]
  {
  }

  lemma HeaderStays(buf: seq<Byte>, more: seq<Byte>)
    requires |buf| >= 2 && |buf| >= 2 + ExtSize(LengthOf(buf[1]))
    ensures SizeOf(buf + more) == SizeOf(buf)
  {
    var ext := ExtSize(LengthOf(buf[1]));
    SliceStays(buf, more, 2, 2 + ext);
  }

  lemma FrameStays(buf: seq<Byte>, more: seq<Byte>)
    requires WholeHeader(buf) && |buf| >= EndOf(buf) && (FinOf(buf[1]) == 1 ==> !Wraps(buf))
    requires SizeOf(buf + more) == SizeOf(buf)
    ensures FrameOf(buf + more) == FrameOf(buf)
  {
    var pos, end := PosOf(buf[1]), EndOf(buf);
    SliceStays(buf, more, 0, end);
    if pos <= end { SliceStays(buf, more, pos, end); }
    SliceStays(buf, more, 0, pos);
    if pos >= 4 { SliceStays(buf, more, pos - 4, pos); }
  }

  /** Once parse has an answer, more bytes do not change it. */
  lemma AnswerStays(buf: seq<Byte>, more: seq<Byte>)
    requires !Decode(buf).Incomplete?
    ensures Decode(buf + more) == Decode(buf)
  {
    HeaderStays(buf, more);
    if Decode(buf).Frame? {
      FrameStays(buf, more);
    }
  }

  lemma SizeOfCut(buf: seq<Byte>, k: nat)
    requires 2 <= k <= |buf| && k >= 2 + ExtSize(LengthOf(buf[1]))
    ensures SizeOf(buf[..k]) == SizeOf(buf)
  {
    HeaderStays(buf[..k], buf[k..]);
    assert buf[..k] + buf[k..] == buf;
  }

  /** The sum wraps only for a 64-bit length whose top bit is set, which the
      standard rules out; it then comes out within the header. */
  lemma WrapFacts(buf: seq<Byte>)
    requires WholeHeader(buf)
    ensures SizeOf(buf) < TWO64
    ensures Wraps(buf) ==> LengthOf(buf[1]) == 127 && buf[2] >= 0x80 && EndOf(buf) < PosOf(buf[1])
  {
    if LengthOf(buf[1]) > 125 {
      var ext := ExtSize(LengthOf(buf[1]));
      FromBigBound(buf[2..2 + ext]);
      Pow256Values();
      if ext == 2 {
        TwoBytes(buf[2], buf[3]);
        assert buf[2..4] == [buf[2], buf[3]];
      } else {
        if buf[2] < 0x80 { TopBit(buf[2..10]); }
      }
    }
  }

  lemma FrameFacts(buf: seq<Byte>)
    requires Decode(buf).Frame?
    ensures WholeHeader(buf) && |Decode(buf).ws.buffer| == EndOf(buf) <= |buf|
    ensures !Wraps(buf) ==> Decode(buf).ws.Valid() && 2 <= EndOf(buf)
  {
  }

  lemma CutIsFrame(buf: seq<Byte>, k: nat)
    requires Decode(buf).Frame? && WholeHeader(buf) && !Wraps(buf) && k == EndOf(buf)
    ensures k <= |buf| && Decode(buf[..k]).Frame?
  {
    SizeOfCut(buf, k);
  }

  /** A frame takes up its own size, two bytes at least, and no byte beyond it
      matters, unless its header announces so much that the sum wraps. */
  lemma FrameIsPrefix(buf: seq<Byte>)
    requires Decode(buf).Frame? && WholeHeader(buf) && !Wraps(buf)
    ensures var ws := Decode(buf).ws;
            && ws.Valid() && 2 <= |ws.buffer| <= |buf|
            && Decode(buf[..|ws.buffer|]) == Decode(buf)
  {
    var k := EndOf(buf);
    FrameFacts(buf);
    CutIsFrame(buf, k);
    AnswerStays(buf[..k], buf[k..]);
    assert buf[..k] + buf[k..] == buf;
  }

  /** Every strict prefix of a frame is incomplete. */
  lemma PrefixIncomplete(buf: seq<Byte>, k: nat)
    requires Decode(buf).Frame? && k < |Decode(buf).ws.buffer|
    ensures Decode(buf[..k]).Incomplete?
  {
    FrameFacts(buf);
    WrapFacts(buf);
    if !Wraps(buf) && !Decode(buf[..k]).Incomplete? {
      AnswerStays(buf[..k], buf[k..]);
      assert buf[..k] + buf[k..] == buf;
      FrameIsPrefix(buf);
      FrameFacts(buf[..k]);
    }
  }

  // -------------------------------------------------------------- wrapped lengths

  /** parse unmasks what lies behind the buffer exactly when a complete masked
      header announces a length within 14 of 2^64. */
  lemma OverrunIff(buf: seq<Byte>)
    ensures Decode(buf).Overrun? <==>
            |buf| >= 14 && LengthOf(buf[1]) == 127 && FinOf(buf[1]) == 1 && FromBig(buf[2..10]) >= TWO64 - 14
  {
    if WholeHeader(buf) { WrapFacts(buf); }
  }

  /** A masked header that announces 2^64 - 1 bytes. */
  const OVERRUN: seq<Byte> := [0x81, 0xFF, 0xFF, 0xFF, 0xFF, 0xFF, 0xFF, 0xFF, 0xFF, 0xFF, 0, 0, 0, 0]

  lemma OverrunExample()
    ensures Decode(OVERRUN).Overrun?
  {
    EightBytes(0xFF, 0xFF, 0xFF, 0xFF, 0xFF, 0xFF, 0xFF, 0xFF);
    assert OVERRUN[2..10] == [0xFF, 0xFF, 0xFF, 0xFF, 0xFF, 0xFF, 0xFF, 0xFF];
    OverrunIff(OVERRUN);
  }

  /** An unmasked header that announces a length within 10 of 2^64. */
  predicate ShortHeader(buf: seq<Byte>) {
    |buf| >= 10 && LengthOf(buf[1]) == 127 && FinOf(buf[1]) == 0 && FromBig(buf[2..10]) >= TWO64 - 10
  }

  /** parse makes a frame of fewer bytes than the header has exactly for these,
      and the frame then has as many bytes as the length is short of the end. */
  lemma ShortFrameIff(buf: seq<Byte>)
    ensures ShortHeader(buf) <==> Decode(buf).Frame? && |Decode(buf).ws.buffer| < PosOf(buf[1])
    ensures ShortHeader(buf) ==> Decode(buf).ws.buffer == buf[..FromBig(buf[2..10]) - (TWO64 - 10)]
  {
    if WholeHeader(buf) { WrapFacts(buf); }
  }

  /** parse makes a frame of no byte at all exactly when an unmasked header
      announces 2^64 - 10 bytes. */
  predicate Sticks(buf: seq<Byte>) {
    ShortHeader(buf) && FromBig(buf[2..10]) == TWO64 - 10
  }

  lemma NoByteTakenIff(buf: seq<Byte>)
    ensures Decode(buf).Frame? && Decode(buf).ws.buffer == [] <==> Sticks(buf)
  {
    ShortFrameIff(buf);
    if Decode(buf).Frame? { FrameFacts(buf); }
  }

  /** Ten bytes that do. */
  const STUCK: seq<Byte> := [0x81, 0x7F, 0xFF, 0xFF, 0xFF, 0xFF, 0xFF, 0xFF, 0xFF, 0xF6]

  lemma StuckSticks()
    ensures Sticks(STUCK) && Decode(STUCK).Frame? && Decode(STUCK).ws.buffer == []
  {
    EightBytes(0xFF, 0xFF, 0xFF, 0xFF, 0xFF, 0xFF, 0xFF, 0xF6);
    assert STUCK[2..10] == [0xFF, 0xFF, 0xFF, 0xFF, 0xFF, 0xFF, 0xFF, 0xF6];
    NoByteTakenIff(STUCK);
  }

  lemma TwoBytes(a: Byte, b: Byte)
    ensures FromBig([a, b]) == (a as nat) * 256 + (b as nat)
  {
    FromBigSnoc([], a);
    FromBigSnoc([a], b);
    assert [] + [a] == [a] && [a] + [b] == [a, b];
  }

  lemma TopBit(s: seq<Byte>)
    requires |s| == 8 && s[0] < 0x80
    ensures FromBig(s) < TWO64 / 2
  {
    TopBitOf(s, 8);
    assert s[..8] == s;
    Pow256Values();
  }

  lemma {:induction false} TopBitOf(s: seq<Byte>, k: nat)
    requires 1 <= k <= |s| && s[0] < 0x80
    ensures FromBig(s[..k]) < 128 * Pow256(k - 1)
  {
    assert s[..k][..k - 1] == s[..k - 1];
    if k > 1 {
      TopBitOf(s, k - 1);
    } else {
      assert s[..0] == [];
    }
  }

  // ------------------------------------------------------------------ round trip

  lemma FirstByte(last: bool, opcode: Byte)
    ensures OpcodeOf(First(Flag(last), opcode)) == opcode & 0x0F
    ensures opcode & 0x0F == opcode <==> opcode < 16
    ensures opcode < 16 ==> FinOf(First(Flag(last), opcode)) == Flag(last)
  {
  }

  lemma SecondByte(masking: bool, length: Byte)
    requires length <= 127
    ensures LengthOf(Second(Flag(masking), length)) == length
    ensures FinOf(Second(Flag(masking), length)) == Flag(masking)
  {
  }

  lemma LengthFieldIs(n: nat)
    ensures LengthField(n) <= 127
    ensures LengthField(n) <= 125 <==> n <= 125
    ensures n <= 125 ==> LengthField(n) as nat == n
    ensures LengthField(n) == 126 <==> 125 < n <= 65535
  {
    if n <= 125 { SmallByte(n); }
  }

  /** Where everything lies in a frame. */
  lemma Layout(opcode: Byte, last: bool, key: Option<MaskKey>, payload: seq<Byte>)
    ensures var e, n := Encode(opcode, last, key, payload), |payload|;
            var ext, pos := ExtSize(LengthField(n)), HeaderSize(n, key.Some?);
            && |e| == pos + n
            && e[0] == First(Flag(last), opcode) && e[1] == Second(Flag(key.Some?), LengthField(n))
            && e[2..2 + ext] == Extended(n)
            && (key.Some? ==> e[pos - 4..pos] == key.value)
            && e[pos..] == (if key.Some? then Masked(payload, key.value) else payload)
  {
    Joined([First(Flag(last), opcode), Second(Flag(key.Some?), LengthField(|payload|))],
           Extended(|payload|), KeyBytes(key), if key.Some? then Masked(payload, key.value) else payload);
  }

  lemma Joined(a: seq<Byte>, b: seq<Byte>, c: seq<Byte>, d: seq<Byte>)
    ensures var e := a + b + c + d;
            && e[..|a|] == a && e[|a|..|a| + |b|] == b
            && e[|a| + |b|..|a| + |b| + |c|] == c && e[|a| + |b| + |c|..] == d
  {
  }

  lemma EncodedSize(opcode: Byte, last: bool, key: Option<MaskKey>, payload: seq<Byte>)
    requires |payload| < TWO64
    ensures var e := Encode(opcode, last, key, payload);
            && |e| >= 2 && |e| >= PosOf(e[1]) && PosOf(e[1]) == HeaderSize(|payload|, key.Some?)
            && LengthOf(e[1]) == LengthField(|payload|) && FinOf(e[1]) == Flag(key.Some?)
            && SizeOf(e) == |payload|
  {
    Layout(opcode, last, key, payload);
    LengthFieldIs(|payload|);
    SecondByte(key.Some?, LengthField(|payload|));
    if |payload| > 125 {
      Pow256Values();
      FromBigEndian(|payload|, ExtSize(LengthField(|payload|)));
    }
  }

  /** What make encodes, parse decodes, whatever follows: the payload, the mask and
      its key, the last-frame flag and the opcode, if the opcode has four bits; it
      takes precisely the bytes of the packet. */
  lemma RoundTrip(opcode: Byte, last: bool, key: Option<MaskKey>, payload: seq<Byte>, rest: seq<Byte>)
    requires HeaderSize(|payload|, key.Some?) + |payload| < TWO64
    ensures var e := Encode(opcode, last, key, payload);
            && Decode(e + rest).Frame?
            && Carries(Decode(e + rest).ws, opcode, last, key, payload)
            && |Decode(e + rest).ws.buffer| == |e|
  {
    var e := Encode(opcode, last, key, payload);
    EncodedIsFrame(opcode, last, key, payload);
    AnswerStays(e, rest);
    DecodedHeader(opcode, last, key, payload);
    DecodedBody(opcode, last, key, payload);
  }

  /** The parsed frame stands for the message it was made from. */
  ghost predicate Carries(ws: WebSocket, opcode: Byte, last: bool, key: Option<MaskKey>, payload: seq<Byte>) {
    && ws.Valid() && PayloadOf(ws) == payload
    && ws.mask == Flag(key.Some?) && (key.Some? ==> ws.maskKey == key.value)
    && (ws.opcode == opcode <==> opcode < 16)
    && (opcode < 16 ==> ws.fin == Flag(last))
  }

  lemma EncodedIsFrame(opcode: Byte, last: bool, key: Option<MaskKey>, payload: seq<Byte>)
    requires HeaderSize(|payload|, key.Some?) + |payload| < TWO64
    ensures var e := Encode(opcode, last, key, payload); Decode(e).Frame? && |Decode(e).ws.buffer| == |e|
  {
    var e := Encode(opcode, last, key, payload);
    EncodedSize(opcode, last, key, payload);
    EncodedKey(opcode, last, key, payload);
    DecodedFields(e);
  }

  lemma DecodedHeader(opcode: Byte, last: bool, key: Option<MaskKey>, payload: seq<Byte>)
    requires Decode(Encode(opcode, last, key, payload)).Frame?
    requires HeaderSize(|payload|, key.Some?) + |payload| < TWO64
    ensures var ws := Decode(Encode(opcode, last, key, payload)).ws;
            && ws.mask == Flag(key.Some?) && (key.Some? ==> ws.maskKey == key.value)
            && (ws.opcode == opcode <==> opcode < 16)
            && (opcode < 16 ==> ws.fin == Flag(last))
  {
    var e := Encode(opcode, last, key, payload);
    EncodedSize(opcode, last, key, payload);
    FirstByte(last, opcode);
    Layout(opcode, last, key, payload);
    DecodedFields(e);
  }

  lemma DecodedBody(opcode: Byte, last: bool, key: Option<MaskKey>, payload: seq<Byte>)
    requires Decode(Encode(opcode, last, key, payload)).Frame?
    requires HeaderSize(|payload|, key.Some?) + |payload| < TWO64
    ensures var ws := Decode(Encode(opcode, last, key, payload)).ws; ws.Valid() && PayloadOf(ws) == payload
  {
    EncodedSize(opcode, last, key, payload);
    EncodedKey(opcode, last, key, payload);
    DecodedPayload(Encode(opcode, last, key, payload));
    DecodedHeader(opcode, last, key, payload);
    if key.Some? {
      Unmasked(payload, key.value);
    }
  }

  lemma EncodedKey(opcode: Byte, last: bool, key: Option<MaskKey>, payload: seq<Byte>)
    requires HeaderSize(|payload|, key.Some?) + |payload| < TWO64
    ensures var e, pos := Encode(opcode, last, key, payload), HeaderSize(|payload|, key.Some?);
            && |e| == pos + |payload|
            && (key.Some? ==> e[pos - 4..pos] == key.value && e[pos..pos + |payload|] == Masked(payload, key.value))
            && (key.None? ==> e[pos..pos + |payload|] == payload)
  {
    hide Encode, Masked;
    Layout(opcode, last, key, payload);
  }

  lemma DecodedFields(buf: seq<Byte>)
    requires Decode(buf).Frame?
    ensures var ws, pos := Decode(buf).ws, PosOf(buf[1]);
            && ws.fin == FinOf(buf[0]) && ws.opcode == OpcodeOf(buf[0])
            && ws.mask == FinOf(buf[1]) && ws.length == LengthOf(buf[1])
            && (ws.mask == 1 ==> ws.maskKey == buf[pos - 4..pos])
            && |ws.buffer| == EndOf(buf)
  {
  }

  lemma DecodedPayload(buf: seq<Byte>)
    requires Decode(buf).Frame? && WholeHeader(buf) && !Wraps(buf)
    ensures var ws, pos := Decode(buf).ws, PosOf(buf[1]);
            && ws.Valid() && ws.payloadPos == pos && ws.payloadSize == SizeOf(buf)
            && PayloadOf(ws) == (if ws.mask == 1 then Masked(buf[pos..pos + SizeOf(buf)], ws.maskKey) else buf[pos..pos + SizeOf(buf)])
  {
    FrameFacts(buf);
  }

  /** No frame that parse accepts carries its payload in a shorter form. */
  lemma ShortestForm(buf: seq<Byte>)
    requires Decode(buf).Frame?
    ensures var ws := Decode(buf).ws;
            ExtSize(LengthField(ws.payloadSize)) <= ExtSize(ws.length)
  {
    var length := LengthOf(buf[1]);
    LengthFieldIs(SizeOf(buf));
    if length == 126 {
      FromBigBound(buf[2..4]);
      Pow256Values();
    }
  }

  // ------------------------------------------------------------------ the methods

  /** The length bytes: payload_size >> 8 * index, from the highest index down. */
  method WriteLength(buffer: array<Byte>, n: nat, count: nat)
    requires 2 + count <= buffer.Length
    modifies buffer
    ensures buffer[2..2 + count] == BigEndian(n, count)
    ensures forall i :: 0 <= i < buffer.Length && !(2 <= i < 2 + count) ==> buffer[i] == old(buffer[i])
  {
    var pos := 2;
    var index: int := count - 1;
    while index >= 0
      invariant -1 <= index < count && pos == 2 + count - 1 - index
      invariant forall i :: 2 <= i < pos ==> buffer[i] == Low(Shr(n, count - 1 - (i - 2)))
      invariant forall i :: 0 <= i < buffer.Length && !(2 <= i < 2 + count) ==> buffer[i] == old(buffer[i])
    {
      buffer[pos] := Low(Shr(n, index));
      pos := pos + 1;
      index := index - 1;
    }
    forall i | 0 <= i < count
      ensures buffer[2 + i] == BigEndian(n, count)[i]
    {
      BigEndianAt(n, count, i);
    }
  }

  /** The first two bytes and the length bytes, in a buffer of zeros. */
  method WriteHead(buffer: array<Byte>, fin: Byte, opCode: Byte, mask: Byte, n: nat) returns (length: Byte)
    requires 2 + ExtSize(LengthField(n)) <= buffer.Length
    modifies buffer
    ensures length == LengthField(n)
    ensures buffer[..2 + ExtSize(length)] == [First(fin, opCode), Second(mask, length)] + Extended(n)
  {
    LengthFieldIs(n);
    buffer[0] := 0;
    buffer[0] := buffer[0] | (fin << 7);
    buffer[0] := buffer[0] | opCode;
    buffer[1] := 0;
    buffer[1] := buffer[1] | (mask << 7);
    if n <= 125 {
      length := n as Byte;
      buffer[1] := buffer[1] | length;
    } else if n <= 65535 {
      length := 126;
      buffer[1] := buffer[1] | length;
      WriteLength(buffer, n, 2);
    } else {
      length := 127;
      buffer[1] := buffer[1] | length;
      WriteLength(buffer, n, 8);
    }
    FirstSecond(fin, opCode, mask, length);
    HeadTwo(buffer[..2 + ExtSize(length)]);
  }

  lemma HeadTwo(s: seq<Byte>)
    requires |s| >= 2
    ensures s == [s[0], s[1]] + s[2..]
  {
  }

  lemma FirstSecond(fin: Byte, opCode: Byte, mask: Byte, length: Byte)
    ensures (0 | (fin << 7)) | opCode == First(fin, opCode)
    ensures (0 | (mask << 7)) | length == Second(mask, length)
  {
  }

  /** make.  `stamp` is the clock reading used as the mask key. */
  method Make(opCode: Byte, payload: seq<Byte>, masking: bool, last: bool, stamp: MaskKey) returns (ws: WebSocket)
    requires HeaderSize(|payload|, masking) + |payload| < TWO64
    ensures ws.buffer == Encode(opCode, last, if masking then Some(stamp) else None, payload)
    ensures ws.Valid() && ws.made && PayloadOf(ws) == payload
    ensures ws.fin == Flag(last) && ws.opcode == opCode && ws.mask == Flag(masking)
    ensures ws.length == LengthField(|payload|) && ws.payloadSize == |payload|
  {
    var n := |payload|;
    var headerSize := 2 + (if masking then 4 else 0);
    if n <= 125 {
      headerSize := headerSize + 0;
    } else if n <= 65535 {
      headerSize := headerSize + 2;
    } else {
      headerSize := headerSize + 8;
    }
    LengthFieldIs(n);
    assert headerSize == HeaderSize(n, masking);
    var buffer := new Byte[headerSize + n];
    var fin, mask: Byte := if last then 1 else 0, 0;
    var maskKey: MaskKey := NO_KEY;
    if masking {
      mask, maskKey := 1, stamp;
    }
    var length := WriteHead(buffer, fin, opCode, mask, n);
    WriteBody(buffer, headerSize, payload, masking, maskKey);
    Assembled(buffer[..], opCode, last, if masking then Some(stamp) else None, payload);
    ws := WebSocket(fin, opCode, mask, maskKey, length, headerSize, n, true, buffer[..]);
    MadePayload(ws, payload);
  }

  lemma MadePayload(ws: WebSocket, payload: seq<Byte>)
    requires ws.Valid() && ws.made
    requires ws.buffer[ws.payloadPos..] == if ws.mask == 1 then Masked(payload, ws.maskKey) else payload
    ensures PayloadOf(ws) == payload
  {
    Unmasked(payload, ws.maskKey);
  }

  method WriteBody(buffer: array<Byte>, pos: nat, payload: seq<Byte>, masking: bool, key: MaskKey)
    requires pos + |payload| == buffer.Length && (masking ==> pos >= 6)
    modifies buffer
    ensures var head := pos - (if masking then 4 else 0); buffer[..head] == old(buffer[..head])
    ensures masking ==> buffer[pos - 4..pos] == key
    ensures buffer[pos..] == if masking then Masked(payload, key) else payload
  {
    if masking {
      WriteMasked(buffer, pos, payload, key);
    } else {
      forall i | 0 <= i < |payload| { buffer[pos + i] := payload[i]; }
    }
  }

  lemma Cut(s: seq<Byte>, i: nat, j: nat)
    requires i <= j <= |s|
    ensures s == s[..i] + s[i..j] + s[j..]
  {
  }

  /** Bytes that lie as they should make a frame. */
  lemma Assembled(s: seq<Byte>, opcode: Byte, last: bool, key: Option<MaskKey>, payload: seq<Byte>)
    requires |s| == HeaderSize(|payload|, key.Some?) + |payload|
    requires var n := |payload|;
             var ext, pos := ExtSize(LengthField(n)), HeaderSize(n, key.Some?);
             && s[..2 + ext] == [First(Flag(last), opcode), Second(Flag(key.Some?), LengthField(n))] + Extended(n)
             && (key.Some? ==> s[pos - 4..pos] == key.value)
             && s[pos..] == (if key.Some? then Masked(payload, key.value) else payload)
    ensures s == Encode(opcode, last, key, payload)
  {
    hide Masked, Extended, First, Second, LengthField, ExtSize;
    var n := |payload|;
    var ext, pos := ExtSize(LengthField(n)), HeaderSize(n, key.Some?);
    assert s[2 + ext..pos] == KeyBytes(key);
    Cut(s, 2 + ext, pos);
  }

  /** The key, then the payload XORed with it. */
  method WriteMasked(buffer: array<Byte>, pos: nat, payload: seq<Byte>, key: MaskKey)
    requires pos >= 4 && pos + |payload| == buffer.Length
    modifies buffer
    ensures forall i :: 0 <= i < pos - 4 ==> buffer[i] == old(buffer[i])
    ensures buffer[pos - 4..pos] == key
    ensures buffer[pos..] == Masked(payload, key)
  {
    forall i | 0 <= i < 4 { buffer[pos - 4 + i] := key[i]; }
    for index := 0 to |payload|
      invariant forall i :: 0 <= i < pos - 4 ==> buffer[i] == old(buffer[i])
      invariant forall i :: 0 <= i < 4 ==> buffer[pos - 4 + i] == key[i]
      invariant forall i :: 0 <= i < index ==> buffer[pos + i] == payload[i] ^ key[i % 4]
    {
      buffer[pos + index] := payload[index] ^ key[index % 4];
    }
  }

  /** The length bytes put together again. */
  method ReadLength(buf: seq<Byte>) returns (n: nat)
    requires |buf| >= 10
    ensures n == FromBig(buf[2..10])
  {
    var bits: bv64 :=
      ((buf[2] as bv64) << 56) | ((buf[3] as bv64) << 48) | ((buf[4] as bv64) << 40) |
      ((buf[5] as bv64) << 32) | ((buf[6] as bv64) << 24) | ((buf[7] as bv64) << 16) |
      ((buf[8] as bv64) << 8) | (buf[9] as bv64);
    n := bits as nat;
    EightBytes(buf[2], buf[3], buf[4], buf[5], buf[6], buf[7], buf[8], buf[9]);
    assert buf[2..10] == [buf[2], buf[3], buf[4], buf[5], buf[6], buf[7], buf[8], buf[9]];
  }

  function Shifted(acc: bv64, b: Byte): bv64 {
    (acc << 8) | (b as bv64)
  }

  lemma ShiftIs(acc: bv64, b: Byte)
    requires acc < 0x100_0000_0000_0000
    ensures ((acc << 8) | (b as bv64)) as nat == (acc as nat) * 256 + (b as nat)
  {
  }

  lemma ShiftedIs(acc: bv64, b: Byte)
    requires acc < 0x100_0000_0000_0000
    ensures Shifted(acc, b) as nat == (acc as nat) * 256 + (b as nat)
  {
    ShiftIs(acc, b);
  }

  function Horner(a: Byte, b: Byte, c: Byte, d: Byte, e: Byte, f: Byte, g: Byte, h: Byte): bv64 {
    Shifted(Shifted(Shifted(Shifted(Shifted(Shifted(Shifted(a as bv64, b), c), d), e), f), g), h)
  }

  lemma FlatIsHorner(a: Byte, b: Byte, c: Byte, d: Byte, e: Byte, f: Byte, g: Byte, h: Byte)
    ensures ((a as bv64) << 56) | ((b as bv64) << 48) | ((c as bv64) << 40) | ((d as bv64) << 32)
            | ((e as bv64) << 24) | ((f as bv64) << 16) | ((g as bv64) << 8) | (h as bv64) == Horner(a, b, c, d, e, f, g, h)
  {
  }

  lemma Grow(acc: bv64, b: Byte)
    ensures acc < 0x100 ==> Shifted(acc, b) < 0x1_0000
    ensures acc < 0x1_0000 ==> Shifted(acc, b) < 0x100_0000
    ensures acc < 0x100_0000 ==> Shifted(acc, b) < 0x1_0000_0000
    ensures acc < 0x1_0000_0000 ==> Shifted(acc, b) < 0x100_0000_0000
    ensures acc < 0x100_0000_0000 ==> Shifted(acc, b) < 0x1_0000_0000_0000
    ensures acc < 0x1_0000_0000_0000 ==> Shifted(acc, b) < 0x100_0000_0000_0000
  {
  }

  lemma OneByte(b: Byte)
    ensures (b as bv64) as nat == b as nat && b as bv64 < 0x100
  {
  }

  lemma Append(s: seq<Byte>, acc: bv64, b: Byte)
    requires FromBig(s) == acc as nat && acc < 0x100_0000_0000_0000
    ensures FromBig(s + [b]) == Shifted(acc, b) as nat
  {
    FromBigSnoc(s, b);
    ShiftedIs(acc, b);
  }

  lemma FourBytes(a: Byte, b: Byte, c: Byte, d: Byte)
    ensures var acc := Shifted(Shifted(Shifted(a as bv64, b), c), d);
            FromBig([a] + [b] + [c] + [d]) == acc as nat && acc < 0x1_0000_0000
  {
    OneByte(a);
    FromBigSnoc([], a);
    assert [] + [a] == [a];
    Grow(a as bv64, b);
    Append([a], a as bv64, b);
    var two := Shifted(a as bv64, b);
    Grow(two, c);
    Append([a] + [b], two, c);
    Grow(Shifted(two, c), d);
    Append([a] + [b] + [c], Shifted(two, c), d);
  }

  lemma EightBytes(a: Byte, b: Byte, c: Byte, d: Byte, e: Byte, f: Byte, g: Byte, h: Byte)
    ensures (((a as bv64) << 56) | ((b as bv64) << 48) | ((c as bv64) << 40) | ((d as bv64) << 32)
             | ((e as bv64) << 24) | ((f as bv64) << 16) | ((g as bv64) << 8) | (h as bv64)) as nat
            == FromBig([a, b, c, d, e, f, g, h])
  {
    FlatIsHorner(a, b, c, d, e, f, g, h);
    FourBytes(a, b, c, d);
    var s, acc := [a] + [b] + [c] + [d], Shifted(Shifted(Shifted(a as bv64, b), c), d);
    MoreBytes(s, acc, e, f, g, h);
    assert s + [e] + [f] + [g] + [h] == [a, b, c, d, e, f, g, h];
  }

  lemma MoreBytes(s: seq<Byte>, acc: bv64, e: Byte, f: Byte, g: Byte, h: Byte)
    requires FromBig(s) == acc as nat && acc < 0x1_0000_0000
    ensures FromBig(s + [e] + [f] + [g] + [h]) == Shifted(Shifted(Shifted(Shifted(acc, e), f), g), h) as nat
  {
    Grow(acc, e);
    Append(s, acc, e);
    var five := Shifted(acc, e);
    Grow(five, f);
    Append(s + [e], five, f);
    var six := Shifted(five, f);
    Grow(six, g);
    Append(s + [e] + [f], six, g);
    Append(s + [e] + [f] + [g], Shifted(six, g), h);
  }

  lemma TwoBytesFlat(a: Byte, b: Byte)
    ensures (((a as bv32) << 8) | (b as bv32)) as nat == (a as nat) * 256 + (b as nat)
  {
  }

  /** The 16-bit length, read before its presence has been checked: `beyond` is
      what the two bytes behind the buffer happen to hold. */
  method ReadShortLength(buf: seq<Byte>, beyond: seq<Byte>) returns (n: nat)
    requires |buf| >= 2 && |beyond| == 2
    ensures n < 65536 && (|buf| >= 4 ==> n == FromBig(buf[2..4]))
  {
    var memory := buf + beyond;
    var a, b := memory[2], memory[3];
    n := (((a as bv32) << 8) | (b as bv32)) as nat;
    TwoBytesFlat(a, b);
    TwoBytes(a, b);
    FromBigBound([a, b]);
    Pow256Values();
    assert |buf| >= 4 ==> buf[2..4] == [a, b];
  }

  /** The frame's own buffer: the header, and the payload without its mask. */
  method CopyFrame(buf: seq<Byte>, pos: nat, end: nat, mask: Byte, key: MaskKey) returns (buffer: seq<Byte>)
    requires pos <= |buf| && end <= |buf| && (mask != 0 ==> pos <= end)
    ensures buffer == if mask == 0 then buf[..end] else buf[..pos] + Masked(buf[pos..end], key)
  {
    if mask == 0 {
      return buf[..end];
    }
    buffer := buf[..pos];
    ghost var payload := Masked(buf[pos..end], key);
    for index := 0 to end - pos
      invariant buffer == buf[..pos] + payload[..index]
    {
      buffer := buffer + [buf[pos + index] ^ key[index % 4]];
    }
    assert payload[..end - pos] == payload;
  }

  /** The three length forms. */
  method ReadSize(buf: seq<Byte>, beyond: seq<Byte>, length: Byte) returns (ok: bool, payloadPos: nat, payloadSize: nat)
    requires |buf| >= 2 && |beyond| == 2 && length == LengthOf(buf[1])
    ensures ok ==> payloadPos == 2 + ExtSize(length) && (|buf| >= payloadPos ==> payloadSize == SizeOf(buf))
    ensures !ok <==> ExtSize(length) == 8 && |buf| < 10
    ensures payloadSize < TWO64 && (ExtSize(length) != 8 ==> payloadSize < 65536)
  {
    FlagOrNot(buf[1]);
    ok, payloadPos, payloadSize := true, 2, 0;
    if length <= 125 {
      payloadSize := length as nat;
    } else if length == 126 {
      payloadPos := payloadPos + 2;
      if payloadPos < 4 {
        ok := false;
        return;
      }
      payloadSize := ReadShortLength(buf, beyond);
    } else if length == 127 {
      payloadPos := payloadPos + 8;
      if |buf| < payloadPos {
        ok := false;
        return;
      }
      payloadSize := ReadLength(buf);
      FromBigBound(buf[2..10]);
      Pow256Values();
    }
  }

  /** parse */
  method Parse(buf: seq<Byte>, beyond: seq<Byte>) returns (r: Outcome)
    requires |buf| < TWO64 && |beyond| == 2
    ensures r == Decode(buf)
  {
    var size := |buf|;
    if size < 2 {
      return Incomplete(IncompleteHeader);
    }
    var fin, opcode, mask, length := FinOf(buf[0]), OpcodeOf(buf[0]), FinOf(buf[1]), LengthOf(buf[1]);
    var ok, payloadPos, payloadSize := ReadSize(buf, beyond, length);
    if !ok {
      return Incomplete(IncompleteHeader);
    }
    FlagOrNot(buf[1]);
    var maskKey: MaskKey := NO_KEY;
    if mask == 1 {
      payloadPos := payloadPos + 4;
      if size < payloadPos {
        return Incomplete(IncompleteHeader);
      }
      maskKey := buf[payloadPos - 4..payloadPos];
    }
    assert payloadPos == PosOf(buf[1]);
    var end := (payloadPos + payloadSize) % TWO64;
    WrappedSum(payloadPos, payloadSize);
    assert WholeHeader(buf) ==> end == EndOf(buf);
    if size < end {
      return Incomplete(IncompletePayload);
    }
    assert WholeHeader(buf);
    // The unmasking loop counts to payloadSize, wrapped sum or not.
    if mask == 1 && payloadPos + payloadSize > size {
      return Overrun;
    }
    var buffer := CopyFrame(buf, payloadPos, end, mask, maskKey);
    r := Frame(WebSocket(fin, opcode, mask, maskKey, length, payloadPos, payloadSize, false, buffer));
    Framed(buf, payloadPos, end, maskKey, buffer);
  }

  lemma WrappedSum(pos: nat, len: nat)
    requires len < TWO64 && pos <= 14
    ensures (pos + len) % TWO64 == pos + len - (if pos + len >= TWO64 then TWO64 else 0)
  {
  }

  lemma Framed(buf: seq<Byte>, pos: nat, end: nat, key: MaskKey, buffer: seq<Byte>)
    requires WholeHeader(buf) && pos == PosOf(buf[1]) && end == EndOf(buf) <= |buf|
    requires FinOf(buf[1]) == 1 ==> !Wraps(buf)
    requires key == if FinOf(buf[1]) == 1 then buf[pos - 4..pos] else NO_KEY
    requires buffer == if FinOf(buf[1]) == 0 then buf[..end] else buf[..pos] + Masked(buf[pos..end], key)
    ensures Decode(buf) == Frame(WebSocket(FinOf(buf[0]), OpcodeOf(buf[0]), FinOf(buf[1]), key, LengthOf(buf[1]), pos, SizeOf(buf), false, buffer))
  {
    FlagOrNot(buf[1]);
  }

  lemma FlagOrNot(b: Byte)
    ensures FinOf(b) == 0 || FinOf(b) == 1
    ensures LengthOf(b) <= 127
  {
  }

  /** payload_to_string */
  method PayloadToString(ws: WebSocket) returns (s: seq<Byte>)
    requires ws.Valid()
    ensures s == PayloadOf(ws)
  {
    if ws.mask == 1 && ws.made {
      s := [];
      for index := 0 to ws.payloadSize
        invariant s == PayloadOf(ws)[..index]
      {
        s := s + [ws.buffer[ws.payloadPos + index] ^ ws.maskKey[index % 4]];
      }
      return;
    }
    s := ws.buffer[ws.payloadPos..ws.payloadPos + ws.payloadSize];
  }
}
