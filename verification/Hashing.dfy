/**
 * Byte strings with free hashing: the bytes of a digest are symbols that name
 * the hashed bytes, so two digests, or two truncations of digests, are equal
 * only when their preimages are. Nothing is assumed about real hash outputs.
 */
module Hashing {
  import opened Prelude
  import opened BigEndian

  datatype Byte = Lit(v: nat) | Keccak(pre: seq<Byte>, i: nat) | Sha256(pre: seq<Byte>, i: nat)

  type Word = w: seq<Byte> | |w| == 32 witness seq(32, _ => Lit(0))
  type Address = a: seq<Byte> | |a| == 20 witness seq(20, _ => Lit(0))

  type U64 = n: nat | n < U64_LIMIT
  type U256 = n: nat | n < U256_LIMIT

  function KeccakOf(pre: seq<Byte>): Word {
    seq(32, i requires 0 <= i < 32 => Keccak(pre, i))
  }

  function Sha256Of(pre: seq<Byte>): Word {
    seq(32, i requires 0 <= i < 32 => Sha256(pre, i))
  }

  /** The address form of a digest: its last twenty bytes. */
  function Low20(w: Word): Address {
    w[12..]
  }

  /** A text as hashing input, one symbol per character. */
  function Text(s: string): (b: seq<Byte>)
    ensures |b| == |s|
  {
    seq(|s|, i requires 0 <= i < |s| => Lit(s[i] as int))
  }

  /** `n` as an ABI word: 32 big-endian bytes. */
  function WordOf(n: nat): Word {
    seq(32, i requires 0 <= i < 32 => Lit(Digit(n, 31 - i)))
  }

  /** A 20-byte address as an ABI word. */
  function Padded(a: Address): Word {
    seq(12, _ => Lit(0)) + a
  }

  lemma KeccakInjective(a: seq<Byte>, b: seq<Byte>)
    requires KeccakOf(a) == KeccakOf(b)
    ensures a == b
  {
    assert KeccakOf(a)[0] == Keccak(a, 0) && KeccakOf(b)[0] == Keccak(b, 0);
  }

  lemma Low20Injective(a: seq<Byte>, b: seq<Byte>)
    requires Low20(KeccakOf(a)) == Low20(KeccakOf(b))
    ensures a == b
  {
    assert Low20(KeccakOf(a))[0] == Keccak(a, 12) && Low20(KeccakOf(b))[0] == Keccak(b, 12);
  }

  lemma TextInjective(a: string, b: string)
    requires Text(a) == Text(b)
    ensures a == b
  {
    assert |a| == |Text(a)| == |b|;
    forall i | 0 <= i < |a|
      ensures a[i] == b[i]
    {
      assert Text(a)[i] == Lit(a[i] as int) && Text(b)[i] == Lit(b[i] as int);
    }
  }

  /** These bytes are the number, the most significant first. */
  ghost predicate Spells(b: seq<Byte>, n: nat) {
    exists bytes: seq<nat> :: Spelling(b, bytes, n)
  }

  ghost predicate Spelling(b: seq<Byte>, bytes: seq<nat>, n: nat) {
    |bytes| == |b| && (forall i :: 0 <= i < |b| ==> bytes[i] < 256 && b[i] == Lit(bytes[i])) && Sum(bytes) == n
  }

  /** An ABI word spells its number. */
  lemma WordSpells(n: U256)
    ensures Spells(WordOf(n), n)
  {
    WordWidth();
    DigitsSum(n, 32);
    assert Spelling(WordOf(n), Digits(n, 32), n);
  }

  lemma WordOfInjective(m: U256, n: U256)
    requires WordOf(m) == WordOf(n)
    ensures m == n
  {
    forall i | 0 <= i < 32
      ensures Digits(m, 32)[i] == Digits(n, 32)[i]
    {
      assert WordOf(m)[i] == Lit(Digit(m, 31 - i)) && WordOf(n)[i] == Lit(Digit(n, 31 - i));
    }
    WordWidth();
    DigitsSum(m, 32);
    DigitsSum(n, 32);
    assert Digits(m, 32) == Digits(n, 32);
  }

  /** Equal concatenations with equal left lengths agree on both sides. */
  lemma Cut<T>(a: seq<T>, x: seq<T>, b: seq<T>, y: seq<T>)
    requires a + x == b + y && |a| == |b|
    ensures a == b && x == y
  {
    assert a == (a + x)[..|a|] && b == (b + y)[..|a|];
    assert x == (a + x)[|a|..] && y == (b + y)[|a|..];
  }

  lemma PaddedInjective(a: Address, b: Address)
    requires Padded(a) == Padded(b)
    ensures a == b
  {
    Cut(seq(12, _ => Lit(0)), a, seq(12, _ => Lit(0)), b);
  }

  // ------------------------------------------------------------ reading preimages by offset

  /** Every byte of a digest names the hashed bytes and its own place. */
  ghost predicate IsDigest(w: seq<Byte>, pre: seq<Byte>) {
    |w| == 32 && forall i :: 0 <= i < 32 ==> w[i] == Keccak(pre, i)
  }

  ghost predicate Zeros(b: seq<Byte>) {
    forall i :: 0 <= i < |b| ==> b[i] == Lit(0)
  }

  /** These bytes are the characters of a text. */
  ghost predicate IsText(b: seq<Byte>, s: string) {
    |b| == |s| && forall i :: 0 <= i < |s| ==> b[i] == Lit(s[i] as int)
  }

  lemma PaddedParts(a: Address)
    ensures Zeros(Padded(a)[..12]) && Padded(a)[12..] == a
  {
  }

  lemma SubSlices(b: seq<Byte>, i: nat)
    requires i + 32 <= |b|
    ensures b[i..i + 12] == b[i..i + 32][..12] && b[i + 12..i + 32] == b[i..i + 32][12..]
  {
  }

  lemma WordAt(pre: seq<Byte>, w: Word, post: seq<Byte>)
    ensures (pre + (w + post))[|pre|..|pre| + 32] == w
  {
  }

  lemma TextThen(s: string, rest: seq<Byte>)
    ensures IsText((Text(s) + rest)[..|s|], s) && (Text(s) + rest)[|s|..] == rest
  {
    assert (Text(s) + rest)[..|s|] == Text(s);
  }
}
