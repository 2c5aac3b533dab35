/** Shared result types and a few facts about sequences. */
module Prelude {

  datatype Option<+T> = None | Some(value: T)

  datatype Result<+T, +E> = Ok(value: T) | Err(error: E) {
    predicate IsFailure() {
      Err?
    }

    function PropagateFailure<U>(): Result<U, E>
      requires Err?
    {
      Err(error)
    }

    function Extract(): T
      requires Ok?
    {
      value
    }
  }

  /** No two positions hold the same element. */
  ghost predicate Distinct<T>(s: seq<T>) {
    forall i, j :: 0 <= i < j < |s| ==> s[i] != s[j]
  }

  /** One past the largest 64-bit unsigned integer. */
  const U64_LIMIT: nat := 0x1_0000_0000_0000_0000

  /** One past the largest 256-bit unsigned integer. */
  const U256_LIMIT: nat := 0x1_0000_0000_0000_0000_0000_0000_0000_0000_0000_0000_0000_0000_0000_0000_0000_0000

  /** A lower-case hexadecimal digit. */
  function HexDigit(d: nat): (c: char)
    requires d < 16
    ensures if d < 10 then '0' <= c <= '9' && c as int - '0' as int == d else 'a' <= c <= 'f' && c as int - 'a' as int == d - 10
  {
    if d < 10 then '0' + d as char else 'a' + (d - 10) as char
  }

  function Min(a: int, b: int): int {
    if a <= b then a else b
  }

  function Max(a: int, b: int): int {
    if a >= b then a else b
  }

  /** Division is known by its quotient and remainder. */
  lemma Quotient(n: nat, d: nat, q: nat, r: nat)
    requires d > 0 && n == q * d + r && r < d
    ensures n / d == q
  {
    assert (n / d) * d + n % d == n;
    var k := n / d;
    assert k < q ==> (k + 1) * d <= q * d;
    assert k > q ==> (q + 1) * d <= k * d;
  }

  /** One more element of a prefix. */
  lemma TakeNext<T>(s: seq<T>, i: nat)
    requires i < |s|
    ensures s[..i + 1] == s[..i] + [s[i]] && s[..i + 1][..i] == s[..i]
  {
  }

  lemma DropLast<T>(s: seq<T>, x: T)
    ensures (s + [x])[..|s|] == s && (s + [x])[|s|] == x
  {
  }

  /** A prefix that starts with the first element. */
  lemma TakeFirst<T>(s: seq<T>, k: nat)
    requires k < |s|
    ensures s[..k + 1] == [s[0]] + s[1..][..k] && s[..k + 1][1..] == s[1..][..k]
  {
  }

  /** A prefix that reaches past the first of two parts. */
  lemma TakeBoth<T>(a: seq<T>, b: seq<T>, n: nat)
    requires |a| <= n <= |a + b|
    ensures (a + b)[..n] == a + b[..n - |a|]
  {
  }

  lemma CutInThree<T>(s: seq<T>, i: nat, n: nat)
    requires i <= |s| && n <= |s| - i
    ensures s[..i] + s[i..][..n] + s[i..][n..] == s
  {
  }

  /** Where the parts of a text of three lie. */
  lemma PartsOfThree<T>(a: seq<T>, b: seq<T>, c: seq<T>)
    ensures (a + b + c)[..|a|] == a && (a + b + c)[|a|..] == b + c && (b + c)[|b|..] == c
  {
  }

  lemma Assoc<T>(a: seq<T>, b: seq<T>, c: seq<T>)
    ensures (a + b) + c == a + (b + c)
  {
  }

  lemma Regroup<T>(a: seq<T>, b: seq<T>, c: seq<T>, d: seq<T>)
    ensures a + (b + c + d) == a + b + c + d
  {
  }

  /** Two ways of cutting one text at a separator neither left part contains agree. */
  lemma CutUnique(a: string, b: string, c: string, d: string, sep: char)
    requires sep !in a && sep !in c
    requires a + [sep] + b == c + [sep] + d
    ensures a == c && b == d
  {
    var left := a + [sep] + b;
    assert left[|a|] == sep && left[|c|] == sep;
    assert forall i :: 0 <= i < |a| ==> left[i] == a[i] && a[i] != sep;
    assert forall i :: 0 <= i < |c| ==> left[i] == c[i] && c[i] != sep;
    assert |a| == |c|;
    assert a == left[..|a|] && c == left[..|a|];
    assert b == left[|a| + 1..] && d == left[|a| + 1..];
  }
}
