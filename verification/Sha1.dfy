/** websocket/sha1: SHA-1 as a running computation, against sections 4 to 7 of
    FIPS 180-1. */
module Sha1 {
  import opened Bytes
  import opened Blocks

  // ------------------------------------------------------------- the standard

  datatype Regs = Regs(a: Word, b: Word, c: Word, d: Word, e: Word)

  const INITIAL := Regs(0x67452301, 0xEFCDAB89, 0x98BADCFE, 0x10325476, 0xC3D2E1F0)

  /** x & 0xFFFFFFFF */
  function Force(x: Word): Word {
    x & 0xFFFFFFFF
  }

  lemma ForceIs(x: Word)
    ensures Force(x) == x
  {
  }

  /** The rotation S^n.  Its masks to 32 bits do nothing to 32-bit words. */
  function CircularShift(bits: nat, word: Word): Word
    requires 1 <= bits <= 31
  {
    (word << bits) | (word >> (32 - bits))
  }

  function Choose(b: Word, c: Word, d: Word): Word {
    (b & c) | (!b & d)
  }

  function Parity(b: Word, c: Word, d: Word): Word {
    b ^ c ^ d
  }

  function Majority(b: Word, c: Word, d: Word): Word {
    (b & c) | (b & d) | (c & d)
  }

  function F(t: nat, b: Word, c: Word, d: Word): Word {
    if t < 20 then Choose(b, c, d)
    else if t < 40 then Parity(b, c, d)
    else if t < 60 then Majority(b, c, d)
    else Parity(b, c, d)
  }

  function K(t: nat): Word {
    if t < 20 then 0x5A827999
    else if t < 40 then 0x6ED9EBA1
    else if t < 60 then 0x8F1BBCDC
    else 0xCA62C1D6
  }

  // ------------------------------------------------- what the functions do, bit by bit

  /** Where b has a one, c is taken; where it has a zero, d is. */
  lemma ChooseTakes(b: Word, c: Word, d: Word)
    ensures Choose(b, c, d) & b == c & b
    ensures Choose(b, c, d) & !b == d & !b
  {
  }

  /** Where two arguments have the same bit, so does their majority; and any two
      may be the first two. */
  lemma MajorityIsShared(b: Word, c: Word, d: Word)
    ensures Majority(b, c, d) & !(b ^ c) == b & !(b ^ c)
    ensures Majority(b, c, d) == Majority(c, d, b)
  {
  }

  /** The constants are the square roots of 2, 3, 5 and 10, times 2^30. */
  lemma RootConstants(t: nat)
    ensures var n := if t < 20 then 2 else if t < 40 then 3 else if t < 60 then 5 else 10;
            var k := K(t) as nat;
            k * k <= n * 0x1000_0000_0000_0000 < (k + 1) * (k + 1)
  {
    assert K(0) as nat == 0x5A827999 && K(20) as nat == 0x6ED9EBA1 && K(40) as nat == 0x8F1BBCDC && K(60) as nat == 0xCA62C1D6;
  }

  /** The first four words count up from 01 by 22 and down from FE by 22, each
      word's lowest byte first; the fifth goes on from F0 by 0F. */
  lemma InitialBytes()
    ensures forall j :: 0 <= j < 4 ==>
              && ByteOf(INITIAL.a, j) as nat == 0x01 + 0x22 * j && ByteOf(INITIAL.b, j) as nat == 0x89 + 0x22 * j
              && ByteOf(INITIAL.c, j) as nat == 0xFE - 0x22 * j && ByteOf(INITIAL.d, j) as nat == 0x76 - 0x22 * j
              && ByteOf(INITIAL.e, j) as nat == 0xF0 - 0x0F * j
  {
    forall j | 0 <= j < 4
      ensures ByteOf(INITIAL.a, j) as nat == 0x01 + 0x22 * j && ByteOf(INITIAL.b, j) as nat == 0x89 + 0x22 * j
      ensures ByteOf(INITIAL.c, j) as nat == 0xFE - 0x22 * j && ByteOf(INITIAL.d, j) as nat == 0x76 - 0x22 * j
      ensures ByteOf(INITIAL.e, j) as nat == 0xF0 - 0x0F * j
    {
      assert j == 0 || j == 1 || j == 2 || j == 3;
    }
  }

  /** Four bytes make a word, the first one highest. */
  function WordOf(b: Block, t: nat): Word
    requires t < 16
  {
    Four(b[4 * t], b[4 * t + 1], b[4 * t + 2], b[4 * t + 3])
  }

  function Four(a: Byte, b: Byte, c: Byte, d: Byte): Word {
    ((a as Word) << 24) | ((b as Word) << 16) | ((c as Word) << 8) | (d as Word)
  }

  /** The first n words of the message schedule. */
  function Schedule(b: Block, n: nat): (w: seq<Word>)
    requires n <= 80
    ensures |w| == n
  {
    if n == 0 then []
    else
      var w := Schedule(b, n - 1);
      if n <= 16 then w + [WordOf(b, n - 1)]
      else w + [CircularShift(1, Mixed(w[n - 4], w[n - 9], w[n - 15], w[n - 17]))]
  }

  function Mixed(a: Word, b: Word, c: Word, d: Word): Word {
    a ^ b ^ c ^ d
  }

  function Round(r: Regs, t: nat, w: Word): Regs {
    Regs(Add(Add(Add(Add(CircularShift(5, r.a), F(t, r.b, r.c, r.d)), r.e), w), K(t)), r.a, CircularShift(30, r.b), r.c, r.d)
  }

  /** The registers after n of the 80 rounds. */
  function Rounds(r: Regs, w: seq<Word>, n: nat): Regs
    requires n <= |w|
  {
    if n == 0 then r else Round(Rounds(r, w, n - 1), n - 1, w[n - 1])
  }

  function Plus(r: Regs, s: Regs): Regs {
    Regs(Add(r.a, s.a), Add(r.b, s.b), Add(r.c, s.c), Add(r.d, s.d), Add(r.e, s.e))
  }

  function Compress(h: Regs, b: Block): Regs {
    Plus(h, Rounds(h, Schedule(b, 80), 80))
  }

  /** The compression function over a whole number of blocks. */
  function Fold(h: Regs, m: seq<Byte>): Regs
    requires |m| % 64 == 0
  {
    FoldBlocks(Compress, h, m)
  }

  /** The padded message: a one bit, zeros, and the length in bits. */
  function Padded(m: seq<Byte>): (p: seq<Byte>)
    ensures |p| % 64 == 0
  {
    PadLength(|m|);
    m + [0x80] + Zeros(PadZeros(|m|)) + BigEndian(8 * |m|, 8)
  }

  function Digest(m: seq<Byte>): Regs {
    Fold(INITIAL, Padded(m))
  }

  // ------------------------------------------------------------- specification

  /** What an object stands for: the message so far, whether its digest has been
      taken, and whether it has been spoiled. */
  datatype Hash = Hash(message: seq<Byte>, computed: bool, corrupted: bool)

  const EMPTY := Hash([], false, false)

  predicate Short(m: seq<Byte>) {
    8 * |m| < TWO64
  }

  /** Input: spoiled by a message of 2^64 bits, or by anything after the digest. */
  function Absorb(s: Hash, data: seq<Byte>): Hash {
    if data == [] then s
    else if s.computed || s.corrupted || !Short(s.message + data) then Hash([], s.computed, true)
    else s.(message := s.message + data)
  }

  function AbsorbAll(s: Hash, inputs: seq<seq<Byte>>): Hash
    decreases |inputs|
  {
    if inputs == [] then s else AbsorbAll(Absorb(s, inputs[0]), inputs[1..])
  }

  predicate Clean(s: Hash) {
    (s.corrupted ==> s.message == []) && Short(s.message)
  }

  lemma AbsorbMore(s: Hash, data: seq<Byte>, more: seq<Byte>)
    requires Clean(s)
    ensures Clean(Absorb(s, data))
    ensures Absorb(Absorb(s, data), more) == Absorb(s, data + more)
  {
    assert s.message + (data + more) == (s.message + data) + more;
    if data == [] { assert data + more == more; }
    if more == [] { assert data + more == data; }
  }

  /** However a message is cut into inputs, the object is the same. */
  lemma {:induction false} ChunkIndependence(s: Hash, inputs: seq<seq<Byte>>)
    requires Clean(s)
    ensures AbsorbAll(s, inputs) == Absorb(s, Concat(inputs))
    decreases |inputs|
  {
    if inputs != [] {
      AbsorbMore(s, inputs[0], Concat(inputs[1..]));
      ChunkIndependence(Absorb(s, inputs[0]), inputs[1..]);
    }
  }

  /** From a new object: the message below 2^64 bits is all of the input, and a
      longer one spoils it. */
  lemma WholeMessage(inputs: seq<seq<Byte>>)
    ensures var s := AbsorbAll(EMPTY, inputs);
            && (s.corrupted <==> !Short(Concat(inputs)))
            && (!s.corrupted ==> s.message == Concat(inputs))
  {
    ChunkIndependence(EMPTY, inputs);
    assert [] + Concat(inputs) == Concat(inputs);
  }

  // ------------------------------------------------------------------ folding

  lemma FoldMore(h: Regs, m: seq<Byte>, b: Block)
    requires |m| % 64 == 0
    ensures Fold(h, m + b) == Compress(Fold(h, m), b)
  {
    hide Compress;
    FoldOneMore(Compress, h, m, b);
  }

  lemma FoldNothing(h: Regs)
    ensures Fold(h, []) == h
  {
    hide Compress;
  }

  /** The length in bits, as the standard stores it. */
  function Length(m: seq<Byte>): seq<Byte> {
    BigEndian(8 * |m|, 8)
  }

  /** A tail of at most 55 bytes takes one more block. */
  lemma DigestShort(whole: seq<Byte>, tail: seq<Byte>)
    requires |whole| % 64 == 0 && |tail| <= 55
    ensures var last := tail + [0x80] + Zeros(55 - |tail|) + Length(whole + tail);
            Digest(whole + tail) == Compress(Fold(INITIAL, whole), last)
  {
    hide Compress, Fold, BigEndian;
    var m := whole + tail;
    var last: Block := tail + [0x80] + Zeros(55 - |tail|) + Length(m);
    assert PadZeros(|m|) == 55 - |tail|;
    assert Padded(m) == whole + last;
    FoldMore(INITIAL, whole, last);
  }

  /** A longer one takes two. */
  lemma DigestLong(whole: seq<Byte>, tail: seq<Byte>)
    requires |whole| % 64 == 0 && 55 < |tail| < 64
    ensures var first, last := tail + [0x80] + Zeros(63 - |tail|), Zeros(56) + Length(whole + tail);
            Digest(whole + tail) == Compress(Compress(Fold(INITIAL, whole), first), last)
  {
    hide Compress, Fold, BigEndian;
    var m := whole + tail;
    var first: Block, last: Block := tail + [0x80] + Zeros(63 - |tail|), Zeros(56) + Length(m);
    assert PadZeros(|m|) == 119 - |tail|;
    assert Zeros(119 - |tail|) == Zeros(63 - |tail|) + Zeros(56);
    Regrouped(whole, tail, [0x80], Zeros(63 - |tail|), Zeros(56), Length(m));
    FoldMore(INITIAL, whole, first);
    FoldMore(INITIAL, whole + first, last);
  }

  // -------------------------------------------------- words and bytes agree

  lemma Shift32(acc: Word, b: Byte)
    requires acc < 0x100_0000
    ensures ((acc << 8) | (b as Word)) as nat == (acc as nat) * 256 + (b as nat)
  {
  }

  lemma Widen(a: Byte, b: Byte, c: Byte)
    ensures (a as Word) < 0x100_0000 && Shifted(a as Word, b) < 0x100_0000 && Shifted(Shifted(a as Word, b), c) < 0x100_0000
    ensures (a as Word) as nat == a as nat
  {
  }

  lemma FlatWord(a: Byte, b: Byte, c: Byte, d: Byte)
    ensures Four(a, b, c, d) == Shifted(Shifted(Shifted(a as Word, b), c), d)
  {
  }

  lemma WordValue(a: Byte, b: Byte, c: Byte, d: Byte)
    ensures Four(a, b, c, d) as nat == FromBig([a] + [b] + [c] + [d])
  {
    FlatWord(a, b, c, d);
    Widen(a, b, c);
    FromBigSnoc([], a);
    assert [] + [a] == [a];
    Append([a], a as Word, b);
    Append([a] + [b], Shifted(a as Word, b), c);
    Append([a] + [b] + [c], Shifted(Shifted(a as Word, b), c), d);
  }

  lemma Append(s: seq<Byte>, acc: Word, b: Byte)
    requires FromBig(s) == acc as nat && acc < 0x100_0000
    ensures FromBig(s + [b]) == Shifted(acc, b) as nat
  {
    FromBigSnoc(s, b);
    Shift32(acc, b);
  }

  function Shifted(acc: Word, b: Byte): Word {
    (acc << 8) | (b as Word)
  }

  /** A word of the block is its four bytes, read as a big-endian number. */
  lemma WordOfIsBig(b: Block, t: nat)
    requires t < 16
    ensures WordOf(b, t) as nat == FromBig(b[4 * t..4 * t + 4])
  {
    WordValue(b[4 * t], b[4 * t + 1], b[4 * t + 2], b[4 * t + 3]);
    assert b[4 * t..4 * t + 4] == [b[4 * t]] + [b[4 * t + 1]] + [b[4 * t + 2]] + [b[4 * t + 3]];
  }

  // ------------------------------------------------------------------ the class

  class SHA1 {
    const H: array<Word>
    var lengthLow: nat
    var lengthHigh: nat
    const messageBlock: array<Byte>
    var messageBlockIndex: nat
    var computed: bool
    var corrupted: bool

    /** The message absorbed so far. */
    ghost var message: seq<Byte>

    ghost function Model(): Hash
      reads this
    {
      Hash(message, computed, corrupted)
    }

    function Words(): Regs
      requires H.Length == 5
      reads H
    {
      Regs(H[0], H[1], H[2], H[3], H[4])
    }

    ghost predicate Shape() {
      H.Length == 5 && messageBlock.Length == 64
    }

    /** The message's whole blocks are folded into H, its last bytes wait in the
        block. */
    ghost predicate Absorbing()
      requires Shape()
      reads this, H, messageBlock
    {
      && messageBlockIndex <= 64 && messageBlockIndex <= |message| && (|message| - messageBlockIndex) % 64 == 0
      && messageBlock[..messageBlockIndex] == message[|message| - messageBlockIndex..]
      && Words() == Fold(INITIAL, message[..|message| - messageBlockIndex])
    }

    /** Length_High:Length_Low is 8 times the number of bytes. */
    ghost predicate Counting()
      reads this
    {
      lengthLow < TWO32 && lengthHigh < TWO32 && lengthHigh * TWO32 + lengthLow == 8 * |message|
    }

    ghost predicate Valid()
      reads this, H, messageBlock
    {
      && Shape()
      && Clean(Model())
      && (!corrupted && !computed ==> messageBlockIndex < 64 && Absorbing() && Counting())
      && (!corrupted && computed ==> Words() == Digest(message))
    }

    constructor ()
      ensures Valid() && Model() == EMPTY && fresh(H) && fresh(messageBlock)
    {
      H := new Word[5];
      messageBlock := new Byte[64];
      new;
      Reset();
    }

    method Reset()
      requires Shape()
      modifies this, H
      ensures Valid() && Model() == EMPTY
    {
      hide Compress, Fold, Digest, Schedule, SHA1.Absorbing, SHA1.Counting;
      lengthLow, lengthHigh, messageBlockIndex := 0, 0, 0;
      computed, corrupted := false, false;
      message := [];
      SetWords(INITIAL);
      Started();
    }

    lemma Started()
      requires Shape() && messageBlockIndex == 0 && message == [] && Words() == INITIAL
      requires lengthLow == 0 && lengthHigh == 0
      ensures Absorbing() && Counting()
    {
      hide Compress, Fold, Digest, Schedule;
      FoldNothing(INITIAL);
      assert message[..0] == [] && message[0..] == [];
      assert messageBlock[..0] == [];
    }

    method SetWords(r: Regs)
      requires Shape()
      modifies H
      ensures Words() == r
    {
      H[0] := r.a;
      H[1] := r.b;
      H[2] := r.c;
      H[3] := r.d;
      H[4] := r.e;
    }

    /** The first two loops of ProcessMessageBlock. */
    method FillSchedule() returns (W: array<Word>)
      requires Shape()
      ensures fresh(W) && W[..] == Schedule(messageBlock[..], 80)
    {
      W := new Word[80];
      FirstWords(W);
      hide CircularShift, Mixed, Four, WordOf;
      ghost var b := messageBlock[..];
      for t := 16 to 80
        invariant W[..t] == Schedule(b, t)
      {
        ghost var w := W[..t];
        W[t] := CircularShift(1, Mixed(W[t - 3], W[t - 8], W[t - 14], W[t - 16]));
        assert W[..t] == w && W[..t + 1] == w + [CircularShift(1, Mixed(w[t - 3], w[t - 8], w[t - 14], w[t - 16]))];
      }
      assert W[..80] == W[..];
    }

    method FirstWords(W: array<Word>)
      requires Shape() && W.Length == 80 && W != H
      modifies W
      ensures W[..16] == Schedule(messageBlock[..], 16)
    {
      hide Four;
      ghost var b := messageBlock[..];
      for t := 0 to 16
        invariant W[..t] == Schedule(b, t)
      {
        W[t] := OneWord(messageBlock[t * 4], messageBlock[t * 4 + 1], messageBlock[t * 4 + 2], messageBlock[t * 4 + 3]);
        assert W[..t + 1] == W[..t] + [WordOf(b, t)];
      }
    }

    method OneWord(a: Byte, b: Byte, c: Byte, d: Byte) returns (w: Word)
      ensures w == Four(a, b, c, d)
    {
      w := (a as Word) << 24;
      w := w | ((b as Word) << 16);
      w := w | ((c as Word) << 8);
      w := w | (d as Word);
    }

    method ProcessMessageBlock()
      requires Shape()
      modifies H, this`messageBlockIndex
      ensures Words() == Compress(old(Words()), messageBlock[..]) && messageBlockIndex == 0
    {
      hide Add, Force, CircularShift, Choose, Parity, Majority;
      var W := FillSchedule();
      ghost var r, w := Words(), W[..];
      var A, B, C, D, E := H[0], H[1], H[2], H[3], H[4];
      var temp: Word;
      for t := 0 to 20
        invariant W[..] == w && Words() == r && Regs(A, B, C, D, E) == Rounds(r, w, t)
      {
        temp := Add(Add(Add(Add(CircularShift(5, A), Choose(B, C, D)), E), W[t]), 0x5A827999);
        ForceIs(temp);
        temp := Force(temp);
        E, D, C, B, A := D, C, CircularShift(30, B), A, temp;
      }
      for t := 20 to 40
        invariant W[..] == w && Words() == r && Regs(A, B, C, D, E) == Rounds(r, w, t)
      {
        temp := Add(Add(Add(Add(CircularShift(5, A), Parity(B, C, D)), E), W[t]), 0x6ED9EBA1);
        ForceIs(temp);
        temp := Force(temp);
        E, D, C, B, A := D, C, CircularShift(30, B), A, temp;
      }
      for t := 40 to 60
        invariant W[..] == w && Words() == r && Regs(A, B, C, D, E) == Rounds(r, w, t)
      {
        temp := Add(Add(Add(Add(CircularShift(5, A), Majority(B, C, D)), E), W[t]), 0x8F1BBCDC);
        ForceIs(temp);
        temp := Force(temp);
        E, D, C, B, A := D, C, CircularShift(30, B), A, temp;
      }
      for t := 60 to 80
        invariant W[..] == w && Words() == r && Regs(A, B, C, D, E) == Rounds(r, w, t)
      {
        temp := Add(Add(Add(Add(CircularShift(5, A), Parity(B, C, D)), E), W[t]), 0xCA62C1D6);
        ForceIs(temp);
        temp := Force(temp);
        E, D, C, B, A := D, C, CircularShift(30, B), A, temp;
      }
      AddWords(A, B, C, D, E);
      messageBlockIndex := 0;
    }

    method AddWords(A: Word, B: Word, C: Word, D: Word, E: Word)
      requires Shape()
      modifies H
      ensures Words() == Plus(old(Words()), Regs(A, B, C, D, E))
    {
      ForceIs(Add(H[0], A));
      H[0] := Force(Add(H[0], A));
      ForceIs(Add(H[1], B));
      H[1] := Force(Add(H[1], B));
      ForceIs(Add(H[2], C));
      H[2] := Force(Add(H[2], C));
      ForceIs(Add(H[3], D));
      H[3] := Force(Add(H[3], D));
      ForceIs(Add(H[4], E));
      H[4] := Force(Add(H[4], E));
    }

    /** The length in bits goes up by 8; wrapping around spoils the object. */
    method Count()
      requires Counting() && !corrupted
      modifies this`lengthLow, this`lengthHigh, this`corrupted
      ensures var n := 8 * |message| + 8;
              && lengthLow < TWO32 && lengthHigh < TWO32
              && (corrupted <==> n >= TWO64)
              && (!corrupted ==> lengthHigh * TWO32 + lengthLow == n)
    {
      LowIsEight(lengthHigh, lengthLow, |message|);
      lengthLow := lengthLow + 8;
      lengthLow := lengthLow % TWO32;
      if lengthLow == 0 {
        lengthHigh := lengthHigh + 1;
        lengthHigh := lengthHigh % TWO32;
        if lengthHigh == 0 {
          corrupted := true;
        }
      }
    }

    method Push(x: Byte)
      requires Shape() && Absorbing() && messageBlockIndex < 64
      modifies this`message, this`messageBlockIndex, messageBlock
      ensures Absorbing() && messageBlockIndex == old(messageBlockIndex) + 1 && message == old(message) + [x]
    {
      hide Compress, Fold;
      PushedByte(message, messageBlockIndex, x);
      messageBlock[messageBlockIndex] := x;
      messageBlockIndex := messageBlockIndex + 1;
      assert messageBlock[..messageBlockIndex] == old(messageBlock[..messageBlockIndex]) + [x];
      message := message + [x];
    }

    method Flush()
      requires Shape() && Absorbing() && messageBlockIndex == 64
      modifies H, this`messageBlockIndex
      ensures Absorbing() && messageBlockIndex == 0
    {
      hide Compress, Fold;
      ghost var whole := message[..|message| - 64];
      FoldMore(INITIAL, whole, messageBlock[..]);
      assert messageBlock[..] == messageBlock[..64];
      assert message == whole + messageBlock[..];
      ProcessMessageBlock();
      assert message[..|message|] == message;
    }

    /** One round of the loop in Input: a byte goes into the block, and a full block
        into H. */
    method OneByte(x: Byte)
      requires Valid() && !computed && !corrupted
      modifies this, H, messageBlock
      ensures Shape() && !computed
      ensures message == old(message) + [x]
      ensures corrupted <==> !Short(message)
      ensures !corrupted ==> Valid()
    {
      hide Compress, Fold, Digest;
      Count();
      Push(x);
      if messageBlockIndex == 64 {
        Flush();
      }
    }

    method Input(data: seq<Byte>)
      requires Valid() && |data| < TWO32
      modifies this, H, messageBlock
      ensures Valid() && Model() == Absorb(old(Model()), data)
    {
      hide Compress, Fold, Digest;
      if |data| == 0 {
        return;
      }
      if computed || corrupted {
        corrupted := true;
        message := [];
        return;
      }
      var i := 0;
      while i < |data| && !corrupted
        invariant i <= |data| && Shape() && !computed && message == old(message) + data[..i]
        invariant !corrupted ==> Valid()
        invariant corrupted ==> !Short(message)
      {
        OneByte(data[i]);
        i := i + 1;
      }
      assert data == data[..i] + data[i..];
      if corrupted {
        message := [];
      }
    }

    /** Zeros up to a place in the block. */
    method ZeroFill(end: nat)
      requires Shape() && messageBlockIndex <= end <= 64
      modifies this`messageBlockIndex, messageBlock
      ensures messageBlockIndex == end
      ensures messageBlock[..end] == old(messageBlock[..messageBlockIndex]) + Zeros(end - old(messageBlockIndex))
    {
      while messageBlockIndex < end
        invariant old(messageBlockIndex) <= messageBlockIndex <= end
        invariant messageBlock[..messageBlockIndex] == old(messageBlock[..messageBlockIndex]) + Zeros(messageBlockIndex - old(messageBlockIndex))
      {
        messageBlock[messageBlockIndex] := 0;
        messageBlockIndex := messageBlockIndex + 1;
        assert messageBlock[..messageBlockIndex] == messageBlock[..messageBlockIndex - 1] + [0];
      }
    }

    method PutWord(at: nat, n: nat)
      requires Shape() && at + 4 <= 64
      modifies messageBlock
      ensures messageBlock[at..at + 4] == BigEndian(n, 4)
      ensures forall i :: 0 <= i < 64 && !(at <= i < at + 4) ==> messageBlock[i] == old(messageBlock[i])
    {
      FourBytesOf(n);
      hide BigEndian, Low, Shr;
      messageBlock[at] := Low(Shr(n, 3));
      messageBlock[at + 1] := Low(Shr(n, 2));
      messageBlock[at + 2] := Low(Shr(n, 1));
      messageBlock[at + 3] := Low(n);
    }

    /** The length in bits, as the last 8 octets. */
    method PutLength()
      requires Shape() && Counting()
      modifies messageBlock
      ensures messageBlock[..56] == old(messageBlock[..56])
      ensures messageBlock[56..] == Length(message)
    {
      LengthWords(lengthHigh, lengthLow, message);
      hide BigEndian, Length;
      PutWord(56, lengthHigh);
      ghost var high := messageBlock[56..60];
      PutWord(60, lengthLow);
      assert messageBlock[56..60] == high;
      assert messageBlock[56..] == messageBlock[56..60] + messageBlock[60..64];
    }

    method PutMark()
      requires Shape() && messageBlockIndex < 64
      modifies this`messageBlockIndex, messageBlock
      ensures messageBlockIndex == old(messageBlockIndex) + 1
      ensures messageBlock[..messageBlockIndex] == old(messageBlock[..messageBlockIndex]) + [0x80]
    {
      messageBlock[messageBlockIndex] := 0x80;
      messageBlockIndex := messageBlockIndex + 1;
    }

    /** The length goes in, and the last block into H. */
    method LastBlock()
      requires Shape() && Counting()
      modifies this`messageBlockIndex, H, messageBlock
      ensures Words() == Compress(old(Words()), old(messageBlock[..56]) + Length(message))
    {
      hide Compress, Length;
      PutLength();
      assert messageBlock[..] == messageBlock[..56] + messageBlock[56..];
      ProcessMessageBlock();
    }

    /** The rest of the block is filled with zeros, and so is the next one as far as
        the length. */
    method TurnOver()
      requires Shape() && messageBlockIndex <= 64
      modifies this`messageBlockIndex, H, messageBlock
      ensures Words() == Compress(old(Words()), old(messageBlock[..messageBlockIndex]) + Zeros(64 - old(messageBlockIndex)))
      ensures messageBlockIndex == 56 && messageBlock[..56] == Zeros(56)
    {
      hide Compress, Fold, Digest, Length, Schedule;
      ZeroFill(64);
      assert messageBlock[..64] == messageBlock[..];
      ProcessMessageBlock();
      assert messageBlock[..0] == [];
      ZeroFill(56);
      assert messageBlock[..56] == Zeros(56);
    }

    method PadMessage()
      requires Valid() && !computed && !corrupted
      modifies this`messageBlockIndex, H, messageBlock
      ensures Words() == Digest(message)
    {
      hide Compress, Fold, Digest, Length, Schedule;
      ghost var whole, tail := message[..|message| - messageBlockIndex], messageBlock[..messageBlockIndex];
      assert message == whole + tail;
      if messageBlockIndex > 55 {
        PutMark();
        TurnOver();
        DigestLong(whole, tail);
      } else {
        PutMark();
        ZeroFill(56);
        DigestShort(whole, tail);
      }
      LastBlock();
    }

    /** Result: a second call gives the same digest. */
    method Result() returns (ok: bool, digest: seq<Word>)
      requires Valid()
      modifies this`computed, this`messageBlockIndex, H, messageBlock
      ensures Valid() && ok == !old(corrupted)
      ensures Model() == if ok then old(Model()).(computed := true) else old(Model())
      ensures ok ==> digest == Five(Digest(message))
    {
      hide Compress, Fold, Digest;
      digest := [];
      if corrupted {
        return false, [];
      }
      if !computed {
        PadMessage();
        computed := true;
      }
      for i := 0 to 5
        invariant digest == H[..i]
      {
        digest := digest + [H[i]];
      }
      ok := true;
    }
  }

  function Five(r: Regs): seq<Word> {
    [r.a, r.b, r.c, r.d, r.e]
  }

  lemma LowIsEight(high: nat, low: nat, n: nat)
    requires high * TWO32 + low == 8 * n
    ensures low % 8 == 0
  {
    assert high * TWO32 == 8 * (high * 0x2000_0000);
  }

  /** The two words of the length. */
  lemma LengthWords(high: nat, low: nat, m: seq<Byte>)
    requires low < TWO32 && high * TWO32 + low == 8 * |m|
    ensures Length(m) == BigEndian(high, 4) + BigEndian(low, 4)
  {
    assert Pow256(4) == TWO32;
    BigEndianSplit(high, low, 4, 4);
  }

  lemma FourBytesOf(n: nat)
    ensures BigEndian(n, 4) == [Low(Shr(n, 3)), Low(Shr(n, 2)), Low(Shr(n, 1)), Low(n)]
  {
    BigEndianAt(n, 4, 0);
    BigEndianAt(n, 4, 1);
    BigEndianAt(n, 4, 2);
    BigEndianAt(n, 4, 3);
  }

  /** One byte more: where the last partial block begins. */
  lemma PushedByte(m: seq<Byte>, i: nat, x: Byte)
    requires i <= |m|
    ensures var m', j := m + [x], i + 1;
            && m'[|m'| - j..] == m[|m| - i..] + [x]
            && m'[..|m'| - j] == m[..|m| - i]
  {
  }
}
