/** Numbers as byte strings, the most significant byte first. */
module BigEndian {
  import opened Prelude

  function Pow256(k: nat): (p: nat)
    ensures p > 0
  {
    if k == 0 then 1 else 256 * Pow256(k - 1)
  }

  /** The first `k` bytes at their weights: the sum of bytes[i] times 256 to the power |bytes| - 1 - i. */
  function SumTo(bytes: seq<nat>, k: nat): nat
    requires k <= |bytes|
  {
    if k == 0 then 0 else SumTo(bytes, k - 1) + bytes[k - 1] * Pow256(|bytes| - k)
  }

  function Sum(bytes: seq<nat>): nat {
    SumTo(bytes, |bytes|)
  }

  /** Read byte by byte, as a big-endian slice is. */
  function FromBigEndian(bytes: seq<nat>): nat {
    if bytes == [] then 0 else FromBigEndian(bytes[..|bytes| - 1]) * 256 + bytes[|bytes| - 1]
  }

  lemma Spread(r: nat, a: nat, p: nat)
    ensures (256 * r + a) * p == r * (256 * p) + a * p
  {
    assert (256 * r) * p == r * (256 * p);
  }

  lemma {:induction false} ReadToWeighs(bytes: seq<nat>, k: nat)
    requires k <= |bytes|
    ensures FromBigEndian(bytes[..k]) * Pow256(|bytes| - k) == SumTo(bytes, k)
  {
    if k > 0 {
      ReadToWeighs(bytes, k - 1);
      var p, v, b := Pow256(|bytes| - k), FromBigEndian(bytes[..k - 1]), bytes[k - 1];
      assert bytes[..k][..k - 1] == bytes[..k - 1];
      assert Pow256(|bytes| - (k - 1)) == 256 * p;
      Spread(v, b, p);
    }
  }

  /** Reading gives every byte its weight. */
  lemma ReadIsSum(bytes: seq<nat>)
    ensures FromBigEndian(bytes) == Sum(bytes)
  {
    ReadToWeighs(bytes, |bytes|);
    assert bytes[..|bytes|] == bytes;
  }

  /** The byte of `n` with `i` bytes after it. */
  function Digit(n: nat, i: nat): nat {
    n / Pow256(i) % 256
  }

  /** The last `k` bytes of `n`. */
  function Digits(n: nat, k: nat): (bytes: seq<nat>)
    ensures |bytes| == k
  {
    seq(k, i requires 0 <= i < k => Digit(n, k - 1 - i))
  }

  lemma ByteAndRest(a: nat, b: nat, p: nat)
    requires a < 256 && b < p
    ensures a * p + b < 256 * p
  {
    assert a * p <= 255 * p;
  }

  lemma DivideTwice(n: nat, p: nat)
    requires p > 0
    ensures n / (256 * p) == n / p / 256
  {
    var q := n / p;
    Spread(q / 256, q % 256, p);
    ByteAndRest(q % 256, n % p, p);
    assert q * p + n % p == n;
    Quotient(n, 256 * p, q / 256, q % 256 * p + n % p);
  }

  lemma NextDigit(n: nat, i: nat)
    ensures n / Pow256(i + 1) * Pow256(i + 1) + Digit(n, i) * Pow256(i) == n / Pow256(i) * Pow256(i)
  {
    var p := Pow256(i);
    var q := n / p;
    DivideTwice(n, p);
    Spread(q / 256, q % 256, p);
  }

  lemma {:induction false} DigitsSumTo(n: nat, k: nat, j: nat)
    requires j <= k && n < Pow256(k)
    ensures SumTo(Digits(n, k), j) == n / Pow256(k - j) * Pow256(k - j)
  {
    if j == 0 {
      Quotient(n, Pow256(k), 0, n);
    } else {
      DigitsSumTo(n, k, j - 1);
      NextDigit(n, k - j);
      assert Digits(n, k)[j - 1] == Digit(n, k - j);
    }
  }

  /** A number that fits is the sum of its bytes. */
  lemma DigitsSum(n: nat, k: nat)
    requires n < Pow256(k)
    ensures Sum(Digits(n, k)) == n
  {
    DigitsSumTo(n, k, k);
    assert Pow256(0) == 1;
  }

  lemma {:induction false} PowAdd(j: nat, k: nat)
    ensures Pow256(j + k) == Pow256(j) * Pow256(k)
  {
    if j > 0 {
      PowAdd(j - 1, k);
      assert Pow256(j + k) == 256 * (Pow256(j - 1) * Pow256(k)) == Pow256(j) * Pow256(k);
    }
  }

  /** A word is as wide as a 256-bit integer. */
  lemma WordWidth()
    ensures Pow256(32) == U256_LIMIT
  {
    assert Pow256(4) == 256 * (256 * (256 * 256));
    PowAdd(4, 4);
    PowAdd(8, 8);
    PowAdd(16, 16);
  }
}
