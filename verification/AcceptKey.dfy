/** WebSocket::sec_accept_key: the answer to a client's key, section 4.2.2 of
    RFC 6455. */
module AcceptKey {
  import opened Bytes
  import opened Blocks
  import Base64
  import Sha1

  const GUID := "258EAFA5-E914-47DA-95CA-C5AB0DC85B11"

  function Codes(s: string): (b: seq<Byte>)
    ensures |b| == |s|
  {
    seq(|s|, i requires 0 <= i < |s| => Low(s[i] as nat))
  }

  /** A digest as bytes: each word's high-order byte first. */
  function Octets(words: seq<Word>): (b: seq<Byte>)
    ensures |b| == 4 * |words|
  {
    if words == [] then []
    else
      var w := words[|words| - 1];
      Octets(words[..|words| - 1]) + [ByteOf(w, 3), ByteOf(w, 2), ByteOf(w, 1), ByteOf(w, 0)]
  }

  /** The words as they lie in the memory of a little-endian machine. */
  function Memory(words: seq<Word>): (b: seq<Byte>)
    ensures |b| == 4 * |words|
  {
    if words == [] then []
    else
      var w := words[|words| - 1];
      Memory(words[..|words| - 1]) + [ByteOf(w, 0), ByteOf(w, 1), ByteOf(w, 2), ByteOf(w, 3)]
  }

  /** Every four bytes turned around. */
  function Swapped(b: seq<Byte>): seq<Byte>
    requires |b| % 4 == 0
  {
    if b == [] then []
    else
      var n := |b|;
      Swapped(b[..n - 4]) + [b[n - 1], b[n - 2], b[n - 3], b[n - 4]]
  }

  lemma {:induction false} SwappedMemory(words: seq<Word>)
    ensures Swapped(Memory(words)) == Octets(words)
  {
    hide ByteOf;
    if words != [] {
      SwappedMemory(words[..|words| - 1]);
      assert Memory(words)[..4 * (|words| - 1)] == Memory(words[..|words| - 1]);
    }
  }

  /** SHA-1 of a message, in base64. */
  function Answer(message: seq<Byte>): string {
    Base64.Encode(Octets(Sha1.Five(Sha1.Digest(message))))
  }

  /** The standard's answer: that of key and GUID. */
  function Accept(key: seq<Byte>): string {
    Answer(key + Codes(GUID))
  }

  /** What is hashed: the length is handed on as an unsigned int. */
  function Taken(message: seq<Byte>): seq<Byte> {
    message[..|message| % TWO32]
  }

  lemma AcceptLength(message: seq<Byte>)
    ensures |Answer(message)| == 28
  {
    hide Sha1.Digest, Base64.Encode;
    Base64.EncodedLength(Octets(Sha1.Five(Sha1.Digest(message))));
  }

  method Store(words: seq<Word>) returns (digest: array<Byte>)
    requires |words| == 5
    ensures fresh(digest) && digest[..] == Memory(words)
  {
    hide ByteOf;
    digest := new Byte[20];
    for i := 0 to 5
      invariant digest[..4 * i] == Memory(words[..i])
    {
      StoreWord(digest, 4 * i, words[i]);
      assert words[..i + 1][..i] == words[..i];
    }
    assert words[..5] == words && digest[..20] == digest[..];
  }

  method StoreWord(digest: array<Byte>, at: nat, w: Word)
    requires at + 4 <= digest.Length
    modifies digest
    ensures digest[..at + 4] == old(digest[..at]) + [ByteOf(w, 0), ByteOf(w, 1), ByteOf(w, 2), ByteOf(w, 3)]
  {
    hide ByteOf;
    for j := 0 to 4
      invariant digest[..at + j] == old(digest[..at]) + [ByteOf(w, 0), ByteOf(w, 1), ByteOf(w, 2), ByteOf(w, 3)][..j]
    {
      digest[at + j] := ByteOf(w, j);
      assert digest[..at + j + 1] == digest[..at + j] + [ByteOf(w, j)];
    }
  }

  /** One round of the loop over the digest: four bytes turned around, in place. */
  method SwapFour(digest: array<Byte>, index: nat)
    requires index + 4 <= digest.Length
    modifies digest
    ensures digest[index] == old(digest[index + 3]) && digest[index + 1] == old(digest[index + 2])
    ensures digest[index + 2] == old(digest[index + 1]) && digest[index + 3] == old(digest[index])
    ensures forall i :: 0 <= i < digest.Length && !(index <= i < index + 4) ==> digest[i] == old(digest[i])
  {
    var c := digest[index];
    digest[index] := digest[index + 3];
    digest[index + 3] := c;
    c := digest[index + 1];
    digest[index + 1] := digest[index + 2];
    digest[index + 2] := c;
  }

  method SwapBytes(digest: array<Byte>)
    requires digest.Length % 4 == 0
    modifies digest
    ensures digest[..] == Swapped(old(digest[..]))
  {
    hide Swapped;
    ghost var was := digest[..];
    var index := 0;
    SwappedNothing();
    while index < digest.Length
      invariant 0 <= index <= digest.Length && index % 4 == 0
      invariant digest[..index] == Swapped(was[..index])
      invariant forall i :: index <= i < digest.Length ==> digest[i] == was[i]
    {
      NextGroup(index, digest.Length);
      ghost var done := digest[..index];
      SwapFour(digest, index);
      SwappedMore(was, index);
      Grown(digest[..], done, index, [was[index + 3], was[index + 2], was[index + 1], was[index]]);
      index := index + 4;
    }
    assert was[..index] == was && digest[..index] == digest[..];
  }

  lemma SwappedNothing()
    ensures Swapped([]) == []
  {
  }

  lemma NextGroup(i: nat, n: nat)
    requires i % 4 == 0 && n % 4 == 0 && i < n
    ensures i + 4 <= n && (i + 4) % 4 == 0
  {
  }

  lemma Grown(b: seq<Byte>, done: seq<Byte>, i: nat, four: seq<Byte>)
    requires |done| == i && |four| == 4 && i + 4 <= |b|
    requires forall k :: 0 <= k < i ==> b[k] == done[k]
    requires b[i] == four[0] && b[i + 1] == four[1] && b[i + 2] == four[2] && b[i + 3] == four[3]
    ensures b[..i + 4] == done + four
  {
  }

  lemma SwappedMore(b: seq<Byte>, i: nat)
    requires i + 4 <= |b| && i % 4 == 0
    ensures Swapped(b[..i + 4]) == Swapped(b[..i]) + [b[i + 3], b[i + 2], b[i + 1], b[i]]
  {
    assert b[..i + 4][..i] == b[..i];
  }

  /** sec_accept_key */
  method SecAcceptKey(key: seq<Byte>) returns (answer: string)
    ensures answer == Answer(Taken(key + Codes(GUID)))
    ensures |key| + |GUID| < TWO32 ==> answer == Accept(key)
  {
    hide Sha1.Digest, Sha1.Fold, Base64.Encode, ByteOf, Octets, Memory, Swapped, Codes;
    var sha := new Sha1.SHA1();
    var acceptKey := key + Codes(GUID);
    var message := acceptKey[..|acceptKey| % TWO32];
    assert |acceptKey| < TWO32 ==> message == acceptKey;
    sha.Input(message);
    assert [] + message == message;
    assert sha.Model() == Sha1.Hash(message, false, false);
    var ok, words := sha.Result();
    var digest := Store(words);
    SwapBytes(digest);
    SwappedMemory(words);
    answer := Base64.Base64Encode(digest[..]);
  }
}
