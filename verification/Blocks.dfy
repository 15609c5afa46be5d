/** Messages cut into blocks of 64 bytes, and their padding: what SHA-1 and MD5
    have in common. */
module Blocks {
  import opened Bytes

  type Word = bv32

  /** Addition modulo 2^32. */
  function Add(x: Word, y: Word): Word {
    x + y
  }

  type Block = b: seq<Byte> | |b| == 64 witness seq(64, i => 0)

  /** A compression function over a whole number of blocks. */
  function FoldBlocks<S>(step: (S, Block) -> S, h: S, m: seq<Byte>): S
    requires |m| % 64 == 0
  {
    if m == [] then h else step(FoldBlocks(step, h, m[..|m| - 64]), m[|m| - 64..])
  }

  lemma {:induction false} FoldOneMore<S>(step: (S, Block) -> S, h: S, m: seq<Byte>, b: Block)
    requires |m| % 64 == 0
    ensures FoldBlocks(step, h, m + b) == step(FoldBlocks(step, h, m), b)
  {
    assert (m + b)[..|m|] == m && (m + b)[|m|..] == b;
  }

  function Zeros(k: nat): seq<Byte> {
    seq(k, i => 0)
  }

  /** Zeros up to 56 bytes modulo 64, behind the byte 0x80. */
  function PadZeros(n: nat): (k: nat)
    ensures (n + 1 + k) % 64 == 56 && k < 64
  {
    if n % 64 <= 55 then 55 - n % 64 else 119 - n % 64
  }

  lemma PadLength(n: nat)
    ensures (n + 1 + PadZeros(n) + 8) % 64 == 0
  {
  }

  lemma Regrouped(a: seq<Byte>, b: seq<Byte>, c: seq<Byte>, d: seq<Byte>, e: seq<Byte>, f: seq<Byte>)
    ensures (a + b) + c + (d + e) + f == (a + (b + c + d)) + (e + f)
  {
  }

  /** Byte j of a word, lowest first. */
  function ByteOf(w: Word, j: nat): Byte
    requires j < 4
  {
    (ShiftRight(w, j) & 0xFF) as Byte
  }

  /** w >> (8 * j) */
  function ShiftRight(w: Word, j: nat): Word
    requires j < 4
  {
    if j == 0 then w else if j == 1 then w >> 8 else if j == 2 then w >> 16 else w >> 24
  }
}
