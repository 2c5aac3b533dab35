/** UTF-8 as the file system stores text, and how a reader that replaces malformed bytes sees a text cut short. */
module Utf8 {
  import opened Prelude

  type Octet = n: nat | n < 256

  const REPLACEMENT: char := '\U{FFFD}'

  /** One character: a lead byte and up to three continuation bytes. */
  function Encode(c: char): (b: seq<Octet>)
    ensures 1 <= |b| <= 4
  {
    var n := c as int;
    if n < 0x80 then [n]
    else if n < 0x800 then [0xC0 + n / 64, 0x80 + n % 64]
    else if n < 0x10000 then [0xE0 + n / 4096, 0x80 + n / 64 % 64, 0x80 + n % 64]
    else [0xF0 + n / 262144, 0x80 + n / 4096 % 64, 0x80 + n / 64 % 64, 0x80 + n % 64]
  }

  function EncodeAll(s: string): seq<Octet> {
    if s == "" then [] else Encode(s[0]) + EncodeAll(s[1..])
  }

  // ------------------------------------------------------------ the decoder

  /** How many bytes a lead byte announces; none for a byte that leads nothing. */
  function Announced(lead: Octet): nat {
    if lead < 0x80 then 1 else if 0xC2 <= lead <= 0xDF then 2 else if 0xE0 <= lead <= 0xEF then 3 else if 0xF0 <= lead <= 0xF4 then 4 else 0
  }

  /** Whether a byte may stand at place `i` after this lead: the first place excludes overlong forms and surrogates. */
  predicate Continues(lead: Octet, i: nat, b: Octet) {
    var low := if i == 1 && lead == 0xE0 then 0xA0 else if i == 1 && lead == 0xF0 then 0x90 else 0x80;
    var high := if i == 1 && lead == 0xED then 0x9F else if i == 1 && lead == 0xF4 then 0x8F else 0xBF;
    low <= b <= high
  }

  /** How many bytes from place `i` on still belong to the announced sequence. */
  function Extent(b: seq<Octet>, i: nat): (n: nat)
    requires 0 < i <= |b|
    ensures i <= n <= |b|
    ensures i <= Announced(b[0]) ==> n <= Announced(b[0])
    ensures forall k :: i <= k < n ==> Continues(b[0], k, b[k])
    decreases |b| - i
  {
    if i < |b| && i < Announced(b[0]) && Continues(b[0], i, b[i]) then Extent(b, i + 1) else i
  }

  /** A complete sequence. */
  predicate Complete(b: seq<Octet>) {
    && |b| > 0 && |b| == Announced(b[0])
    && (|b| > 1 ==> Continues(b[0], 1, b[1])) && (|b| > 2 ==> Continues(b[0], 2, b[2])) && (|b| > 3 ==> Continues(b[0], 3, b[3]))
  }

  /** The code point a complete sequence spells. */
  function Point(b: seq<Octet>): int
    requires Complete(b)
  {
    if |b| == 1 then b[0] as int
    else if |b| == 2 then (b[0] as int - 0xC0) * 64 + (b[1] as int - 0x80)
    else if |b| == 3 then (b[0] as int - 0xE0) * 4096 + (b[1] as int - 0x80) * 64 + (b[2] as int - 0x80)
    else (b[0] as int - 0xF0) * 262144 + (b[1] as int - 0x80) * 4096 + (b[2] as int - 0x80) * 64 + (b[3] as int - 0x80)
  }

  function Assemble(b: seq<Octet>): char
    requires Complete(b)
  {
    Point(b) as char
  }

  /** Complete sequences become characters; each longest broken beginning of one becomes a replacement character. */
  function Decode(b: seq<Octet>): string {
    if b == [] then ""
    else
      var n := Extent(b, 1);
      if n == Announced(b[0]) then [Assemble(b[..n])] + Decode(b[n..])
      else [REPLACEMENT] + Decode(b[n..])
  }

  // ------------------------------------------------------------ laws

  /** An encoded character is announced in full and continues properly. */
  lemma EncodedShape(c: char)
    ensures Announced(Encode(c)[0]) == |Encode(c)|
    ensures forall k :: 1 <= k < |Encode(c)| ==> Continues(Encode(c)[0], k, Encode(c)[k])
    ensures Complete(Encode(c))
  {
    EncodedLead(c);
  }

  lemma EncodedLead(c: char)
    ensures Announced(Encode(c)[0]) == |Encode(c)|
    ensures |Encode(c)| > 1 ==> Continues(Encode(c)[0], 1, Encode(c)[1])
  {
  }

  /** A number by its base-64 digits. */
  lemma Sextets(n: nat)
    ensures n == n / 64 * 64 + n % 64
    ensures n / 64 == n / 4096 * 64 + n / 64 % 64
    ensures n / 4096 == n / 262144 * 64 + n / 4096 % 64
  {
    assert n / 64 / 64 == n / 4096 && n / 4096 / 64 == n / 262144;
  }

  lemma AssembleEncoded(c: char)
    ensures Complete(Encode(c)) && Assemble(Encode(c)) == c
  {
    EncodedShape(c);
    Sextets(c as int);
    var b, n := Encode(c), c as int;
    assert |b| == 2 ==> b[0] as int - 0xC0 == n / 64;
    assert |b| == 3 ==> b[0] as int - 0xE0 == n / 4096;
    assert |b| == 4 ==> b[0] as int - 0xF0 == n / 262144;
    assert Point(b) == n;
  }

  /** As many bytes of an encoded character as there are belong to it, and no more. */
  lemma {:induction false} ExtentOfPrefix(c: char, b: seq<Octet>, i: nat)
    requires 0 < i <= |b| && i <= |Encode(c)|
    requires forall k :: 0 <= k < |b| && k < |Encode(c)| ==> b[k] == Encode(c)[k]
    ensures Extent(b, i) == Min(|b|, |Encode(c)|)
    decreases |b| - i
  {
    EncodedShape(c);
    if i < |b| && i < |Encode(c)| {
      ExtentOfPrefix(c, b, i + 1);
    }
  }

  /** A text decodes back from its own bytes, character by character. */
  lemma DecodeFirst(c: char, rest: seq<Octet>)
    ensures Decode(Encode(c) + rest) == [c] + Decode(rest)
  {
    var b := Encode(c) + rest;
    ExtentOfPrefix(c, b, 1);
    AssembleEncoded(c);
    assert b[..|Encode(c)|] == Encode(c) && b[|Encode(c)|..] == rest;
  }

  /** A character cut short becomes one replacement character. */
  lemma DecodeTorn(c: char, n: nat)
    requires 0 < n < |Encode(c)|
    ensures Decode(Encode(c)[..n]) == [REPLACEMENT]
  {
    var b := Encode(c)[..n];
    ExtentOfPrefix(c, b, 1);
    EncodedShape(c);
    assert b[n..] == [];
  }

  lemma {:induction false} RoundTrip(s: string)
    ensures Decode(EncodeAll(s)) == s
  {
    if s != "" {
      RoundTrip(s[1..]);
      DecodeFirst(s[0], EncodeAll(s[1..]));
    }
  }

  lemma {:induction false} EncodeConcat(a: string, b: string)
    ensures EncodeAll(a + b) == EncodeAll(a) + EncodeAll(b)
  {
    if a == "" {
      assert a + b == b;
    } else {
      assert (a + b)[1..] == a[1..] + b && (a + b)[0] == a[0];
      EncodeConcat(a[1..], b);
      Assoc(Encode(a[0]), EncodeAll(a[1..]), EncodeAll(b));
    }
  }

  /** Cut at byte `n`, a text keeps its first `k` characters and, if it says so, a torn one. */
  ghost predicate CutAt(s: string, n: nat, k: nat, torn: bool) {
    && n <= |EncodeAll(s)| && k <= |s| && (torn ==> k < |s| && |Encode(s[k])| > 1)
    && |EncodeAll(s[..k])| <= n && (k < |s| ==> n < |EncodeAll(s[..k])| + |Encode(s[k])|)
  }

  /** And decodes to those, with a replacement for the torn one. */
  ghost predicate CutReads(s: string, n: nat, k: nat, torn: bool) {
    n <= |EncodeAll(s)| && k <= |s| && Decode(EncodeAll(s)[..n]) == s[..k] + (if torn then [REPLACEMENT] else "")
  }

  ghost predicate IsCut(s: string, n: nat, k: nat, torn: bool) {
    CutAt(s, n, k, torn) && CutReads(s, n, k, torn)
  }

  lemma {:induction false} CutText(s: string, n: nat) returns (k: nat, torn: bool)
    requires n <= |EncodeAll(s)|
    ensures IsCut(s, n, k, torn)
  {
    if s == "" {
      k, torn := 0, false;
    } else if n < |Encode(s[0])| {
      k, torn := 0, n > 0;
      assert EncodeAll(s)[..n] == Encode(s[0])[..n] && s[..0] == "";
      if torn {
        DecodeTorn(s[0], n);
      }
    } else {
      k, torn := CutText(s[1..], n - |Encode(s[0])|);
      CutAtLater(s, n, k, torn);
      CutReadsLater(s, n, k, torn);
      k := k + 1;
    }
  }

  lemma {:induction false} CutAtLater(s: string, n: nat, k: nat, torn: bool)
    requires s != "" && |Encode(s[0])| <= n <= |EncodeAll(s)| && CutAt(s[1..], n - |Encode(s[0])|, k, torn)
    ensures CutAt(s, n, k + 1, torn)
  {
    var whole, some := s[..k + 1], s[1..][..k];
    TakeFirst(s, k);
    assert |EncodeAll(whole)| == |Encode(s[0])| + |EncodeAll(some)|;
    assert k + 1 < |s| ==> s[k + 1] == s[1..][k];
  }

  lemma {:induction false} CutReadsLater(s: string, n: nat, k: nat, torn: bool)
    requires s != "" && |Encode(s[0])| <= n <= |EncodeAll(s)| && CutReads(s[1..], n - |Encode(s[0])|, k, torn)
    ensures CutReads(s, n, k + 1, torn)
  {
    var first, rest := Encode(s[0]), EncodeAll(s[1..]);
    TakeBoth(first, rest, n);
    DecodeFirst(s[0], rest[..n - |first|]);
    TakeFirst(s, k);
    Assoc([s[0]], s[1..][..k], if torn then [REPLACEMENT] else "");
  }

  /** Longer beginnings of a text take more bytes. */
  lemma {:induction false} PrefixBytes(s: string, k: nat, m: nat)
    requires k < m <= |s|
    ensures |EncodeAll(s[..k])| + |Encode(s[k])| <= |EncodeAll(s[..m])|
  {
    var tail := s[k..m];
    assert s[..m] == s[..k] + tail && tail[0] == s[k];
    EncodeConcat(s[..k], tail);
  }
}
