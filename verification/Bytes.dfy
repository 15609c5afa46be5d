/** Bytes, and big-endian numbers made of them. */
module Bytes {
  type Byte = bv8

  datatype Option<+T> = None | Some(value: T)

  const TWO32 := 0x1_0000_0000
  const TWO64 := 0x1_0000_0000_0000_0000

  /** All the inputs of a stream, one after the other. */
  function Concat<T>(inputs: seq<seq<T>>): seq<T> {
    if inputs == [] then [] else inputs[0] + Concat(inputs[1..])
  }

  /** n >> (8 * k) */
  function Shr(n: nat, k: nat): nat {
    if k == 0 then n else Shr(n / 256, k - 1)
  }

  /** n & 0xFF */
  function Low(n: nat): Byte {
    (n % 256) as Byte
  }

  lemma LowSame(n: nat, m: nat)
    requires n % 256 == m % 256
    ensures Low(n) == Low(m)
  {
  }

  lemma LowIs(n: nat)
    ensures Low(n) as nat == n % 256
  {
    SmallByte(n % 256);
  }

  lemma SmallByte(n: nat)
    requires n < 256
    ensures (n as Byte) as nat == n
  {
    BitsAre(n, 8);
    ThereAndBack(n, Bits(n, 8));
  }

  lemma ThereAndBack(n: nat, b: Byte)
    requires b as nat == n
    ensures n < 256 && n as Byte == b
  {
    BackAndThere(b);
  }

  lemma BackAndThere(b: Byte)
    ensures (b as nat) as Byte == b
  {
  }

  lemma LowByte(n: nat, b: Byte)
    requires n % 256 == b as nat
    ensures Low(n) == b
  {
    BackAndThere(b);
  }

  /** A number put together bit by bit. */
  function Bits(n: nat, k: nat): Byte {
    if k == 0 then 0 else Pushed(Bits(n / 2, k - 1), n % 2 == 1)
  }

  function Pushed(acc: Byte, bit: bool): Byte {
    (acc << 1) | (if bit then 1 else 0)
  }

  function Pow2(k: nat): nat {
    if k == 0 then 1 else 2 * Pow2(k - 1)
  }

  lemma {:induction false} Pow2Bound(k: nat)
    requires k <= 7
    ensures Pow2(k) <= Pow2(7) == 128
    decreases 7 - k
  {
    if k < 7 {
      Pow2Bound(k + 1);
    } else {
      assert Pow2(4) == 16;
    }
  }

  lemma {:induction false} BitsAre(n: nat, k: nat)
    requires k <= 8 && n < (if k == 8 then 256 else Pow2(k))
    ensures Bits(n, k) as nat == n
  {
    if k > 0 {
      Pow2Bound(k - 1);
      BitsAre(n / 2, k - 1);
      PushedIs(Bits(n / 2, k - 1), n % 2 == 1);
    }
  }

  lemma PushedIs(acc: Byte, bit: bool)
    requires acc as nat < 0x80
    ensures Pushed(acc, bit) as nat == 2 * (acc as nat) + (if bit then 1 else 0)
  {
    SmallAsBits(acc);
    Doubled(acc);
    OrZero(acc << 1);
  }

  lemma SmallAsBits(acc: Byte)
    requires acc as nat < 0x80
    ensures acc < 0x80
  {
  }

  lemma Doubled(acc: Byte)
    requires acc < 0x80
    ensures (acc << 1) as nat == 2 * (acc as nat)
    ensures ((acc << 1) | 1) as nat == 2 * (acc as nat) + 1
  {
  }

  lemma OrZero(b: Byte)
    ensures b | 0 == b
  {
  }

  /** The low k bytes of a number, most significant first. */
  function BigEndian(n: nat, k: nat): (s: seq<Byte>)
    ensures |s| == k
  {
    if k == 0 then [] else BigEndian(n / 256, k - 1) + [Low(n)]
  }

  /** The number that bytes stand for, most significant first. */
  function FromBig(s: seq<Byte>): nat {
    if s == [] then 0 else FromBig(s[..|s| - 1]) * 256 + (s[|s| - 1] as nat)
  }

  function Pow256(k: nat): nat {
    if k == 0 then 1 else 256 * Pow256(k - 1)
  }

  lemma Pow256Values()
    ensures Pow256(0) == 1 && Pow256(2) == 0x1_0000 && Pow256(7) == 0x100_0000_0000_0000 && Pow256(8) == 0x1_0000_0000_0000_0000
  {
    assert Pow256(4) == 0x1_0000_0000;
    assert Pow256(6) == 0x1_0000_0000_0000;
  }

  lemma {:induction false} BigEndianAt(n: nat, k: nat, i: nat)
    requires i < k
    ensures BigEndian(n, k)[i] == Low(Shr(n, k - 1 - i))
  {
    if i < k - 1 {
      BigEndianAt(n / 256, k - 1, i);
    }
  }

  /** Bytes of a number, read back, are the number. */
  lemma {:induction false} FromBigEndian(n: nat, k: nat)
    requires n < Pow256(k)
    ensures FromBig(BigEndian(n, k)) == n
  {
    if k > 0 {
      FromBigEndian(n / 256, k - 1);
      LowIs(n);
      assert BigEndian(n, k)[..k - 1] == BigEndian(n / 256, k - 1);
    }
  }

  lemma {:induction false} FromBigBound(s: seq<Byte>)
    ensures FromBig(s) < Pow256(|s|)
  {
    if s != [] {
      FromBigBound(s[..|s| - 1]);
    }
  }

  lemma FromBigSnoc(s: seq<Byte>, b: Byte)
    ensures FromBig(s + [b]) == FromBig(s) * 256 + (b as nat)
  {
    assert (s + [b])[..|s|] == s;
  }

  lemma DropByte(high: nat, p: nat, low: nat)
    ensures (high * (256 * p) + low) / 256 == high * p + low / 256
    ensures (high * (256 * p) + low) % 256 == low % 256
  {
    assert high * (256 * p) == 256 * (high * p);
  }

  /** The bytes of a number in two halves. */
  lemma {:induction false} BigEndianSplit(high: nat, low: nat, j: nat, k: nat)
    requires low < Pow256(k)
    ensures BigEndian(high * Pow256(k) + low, j + k) == BigEndian(high, j) + BigEndian(low, k)
    decreases k
  {
    if k == 0 {
      assert BigEndian(high, j) + [] == BigEndian(high, j);
    } else {
      var n, p := high * Pow256(k) + low, Pow256(k - 1);
      DropByte(high, p, low);
      LowSame(n, low);
      hide Low;
      BigEndianSplit(high, low / 256, j, k - 1);
    }
  }
}
