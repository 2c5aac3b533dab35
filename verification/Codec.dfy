/**
 * The text forms the proof carries. Parsers and signature recovery belong to
 * libraries, so they are parameters; what is asked of them is only that
 * parsing undoes printing.
 */
module Codec {
  import opened Prelude
  import opened Hashing
  import Decimal
  import Json

  datatype Codec = Codec(
    printWord: Word -> string, parseWord: string -> Option<Word>,
    printAddress: Address -> string, parseAddress: string -> Option<Address>,
    parseU64: string -> Option<U64>, parseU256: string -> Option<U256>,
    recover: (string, Word) -> Option<Address>)

  ghost predicate RoundTrips(c: Codec) {
    && (forall w: Word :: c.parseWord(c.printWord(w)) == Some(w))
    && (forall a: Address :: c.parseAddress(c.printAddress(a)) == Some(a))
    && (forall n: U64 :: c.parseU64(Decimal.Print(n)) == Some(n))
    && (forall n: U256 :: c.parseU256(Decimal.Print(n)) == Some(n))
  }

  // ------------------------------------------------------------ such codecs exist

  function ByteJson(b: Byte): Json.Json {
    match b
    case Lit(v) => Json.Num(v)
    case Keccak(pre, i) => Json.Arr([Json.Num(0), Json.Num(i), Json.Arr(BytesJson(pre))])
    case Sha256(pre, i) => Json.Arr([Json.Num(1), Json.Num(i), Json.Arr(BytesJson(pre))])
  }

  function BytesJson(s: seq<Byte>): (r: seq<Json.Json>)
    ensures |r| == |s|
  {
    if s == [] then [] else [ByteJson(s[0])] + BytesJson(s[1..])
  }

  lemma {:induction false} ByteJsonInjective(a: Byte, b: Byte)
    requires ByteJson(a) == ByteJson(b)
    ensures a == b
    decreases a, 1
  {
    if !a.Lit? {
      assert ByteJson(a).items[0] == ByteJson(b).items[0] && ByteJson(a).items[1] == ByteJson(b).items[1];
      assert ByteJson(a).items[2] == ByteJson(b).items[2];
      BytesJsonInjective(a.pre, b.pre);
    }
  }

  lemma {:induction false} BytesJsonInjective(a: seq<Byte>, b: seq<Byte>)
    requires BytesJson(a) == BytesJson(b)
    ensures a == b
    decreases a, 0
  {
    if a != [] {
      assert |b| == |BytesJson(b)| > 0;
      Cut([ByteJson(a[0])], BytesJson(a[1..]), [ByteJson(b[0])], BytesJson(b[1..]));
      ByteJsonInjective(a[0], b[0]);
      BytesJsonInjective(a[1..], b[1..]);
      assert a == [a[0]] + a[1..] && b == [b[0]] + b[1..];
    }
  }

  function PrintBytes(s: seq<Byte>): string {
    Json.Write(Json.Arr(BytesJson(s)))
  }

  lemma PrintBytesInjective(a: seq<Byte>, b: seq<Byte>)
    requires PrintBytes(a) == PrintBytes(b)
    ensures a == b
  {
    Json.WriteInjective(Json.Arr(BytesJson(a)), Json.Arr(BytesJson(b)));
    BytesJsonInjective(a, b);
  }

  ghost function ParseWith<T(!new)>(write: T -> string, s: string): Option<T> {
    if exists x :: write(x) == s then (var x :| write(x) == s; Some(x)) else None
  }

  /** The laws asked of a codec are met by some codec, whatever recovery does. */
  lemma SomeCodecRoundTrips(recover: (string, Word) -> Option<Address>)
    ensures exists c: Codec :: RoundTrips(c) && c.recover == recover
  {
    var pw: Word -> string := (w: Word) => PrintBytes(w);
    var pa: Address -> string := (a: Address) => PrintBytes(a);
    var p64: U64 -> string := (n: U64) => Decimal.Print(n);
    var p256: U256 -> string := (n: U256) => Decimal.Print(n);
    var c := Codec(pw, s => ParseWith(pw, s), pa, s => ParseWith(pa, s), s => ParseWith(p64, s), s => ParseWith(p256, s), recover);
    forall w: Word
      ensures c.parseWord(c.printWord(w)) == Some(w)
    {
      var x := c.parseWord(c.printWord(w)).value;
      assert pw(x) == pw(w);
      PrintBytesInjective(x, w);
    }
    forall a: Address
      ensures c.parseAddress(c.printAddress(a)) == Some(a)
    {
      var x := c.parseAddress(c.printAddress(a)).value;
      assert pa(x) == pa(a);
      PrintBytesInjective(x, a);
    }
    forall n: U64
      ensures c.parseU64(Decimal.Print(n)) == Some(n)
    {
      assert p64(n) == Decimal.Print(n);
      Decimal.PrintInjective(c.parseU64(Decimal.Print(n)).value, n);
    }
    forall n: U256
      ensures c.parseU256(Decimal.Print(n)) == Some(n)
    {
      assert p256(n) == Decimal.Print(n);
      Decimal.PrintInjective(c.parseU256(Decimal.Print(n)).value, n);
    }
    assert RoundTrips(c);
  }
}
