/**
 * Decimal amounts and base units: `fmtUnits` (benchmarks/gum-load/src/metrics.ts), `decimalToUnits`
 * (benchmarks/gum-load/src/model.ts), `formatBaseUnits` and `groupDigits` (web/lib/format.ts) and
 * `Amount::from_decimal_str` (crates/gum-core/src/amount.rs).
 */
module Amounts {
  import opened Prelude
  import opened Decimal

  datatype AmountError = NotPlainDecimal | InvalidFormat | TooManyDecimalUnits | UnitsOverflow

  // ------------------------------------------------------------ plain decimals

  /** The parts of a text around its first point; no point, no fraction. */
  datatype Parts = Parts(whole: string, fraction: Option<string>)

  function SplitOnce(s: string): (p: Parts)
    ensures '.' !in p.whole
    ensures s == p.whole + (if p.fraction.Some? then "." + p.fraction.value else "")
  {
    if s == "" then Parts("", None)
    else if s[0] == '.' then Parts("", Some(s[1..]))
    else
      var rest := SplitOnce(s[1..]);
      Parts([s[0]] + rest.whole, rest.fraction)
  }

  /** Digits, or digits, a point and digits. */
  predicate Plain(s: string) {
    var p := SplitOnce(s);
    p.whole != "" && AllDigits(p.whole) && (p.fraction.Some? ==> p.fraction.value != "" && AllDigits(p.fraction.value))
  }

  function Fraction(s: string): string {
    var p := SplitOnce(s);
    if p.fraction.Some? then p.fraction.value else ""
  }

  /** A plain decimal denotes its digits, read as an integer, over ten to the number of places. */
  function Numerator(s: string): nat
    requires Plain(s)
  {
    ValueOfConcat(SplitOnce(s).whole, Fraction(s));
    Value(SplitOnce(s).whole + Fraction(s))
  }

  function Places(s: string): nat {
    |Fraction(s)|
  }

  lemma {:induction false} SplitOfWhole(whole: string)
    requires '.' !in whole
    ensures SplitOnce(whole) == Parts(whole, None)
  {
    if whole != "" {
      SplitOfWhole(whole[1..]);
      assert whole == [whole[0]] + whole[1..];
    }
  }

  lemma {:induction false} SplitOfJoin(whole: string, fraction: string)
    requires '.' !in whole
    ensures SplitOnce(whole + ("." + fraction)) == Parts(whole, Some(fraction))
  {
    var all := whole + ("." + fraction);
    if whole == "" {
      assert all[0] == '.' && all[1..] == fraction;
    } else {
      SplitOfJoin(whole[1..], fraction);
      assert all[0] == whole[0] && all[1..] == whole[1..] + ("." + fraction);
      assert whole == [whole[0]] + whole[1..];
    }
  }

  // ------------------------------------------------------------ the harness parser

  /** The characters the language's `trim` removes. */
  predicate IsBlank(c: char) {
    var n := c as int;
    9 <= n <= 13 || n == 0x20 || n == 0xA0 || n == 0x1680 || 0x2000 <= n <= 0x200A
    || n == 0x2028 || n == 0x2029 || n == 0x202F || n == 0x205F || n == 0x3000 || n == 0xFEFF
  }

  function TrimStart(s: string): string {
    if s != "" && IsBlank(s[0]) then TrimStart(s[1..]) else s
  }

  function TrimEnd(s: string): string {
    if s != "" && IsBlank(s[|s| - 1]) then TrimEnd(s[..|s| - 1]) else s
  }

  function Trim(s: string): string {
    TrimEnd(TrimStart(s))
  }

  /** Only blanks are trimmed, and all at the ends are. */
  lemma {:induction false} TrimStrips(s: string) returns (before: string, after: string)
    ensures s == before + Trim(s) + after
    ensures (forall c :: c in before ==> IsBlank(c)) && (forall c :: c in after ==> IsBlank(c))
    ensures Trim(s) != "" ==> !IsBlank(Trim(s)[0]) && !IsBlank(Trim(s)[|Trim(s)| - 1])
  {
    before := TrimStartStrips(s);
    after := TrimEndStrips(TrimStart(s));
    Assoc(before, Trim(s), after);
  }

  lemma {:induction false} TrimStartStrips(s: string) returns (before: string)
    ensures s == before + TrimStart(s) && (forall c :: c in before ==> IsBlank(c))
    ensures TrimStart(s) != "" ==> !IsBlank(TrimStart(s)[0])
  {
    before := "";
    if s != "" && IsBlank(s[0]) {
      var rest := TrimStartStrips(s[1..]);
      before := [s[0]] + rest;
      Assoc([s[0]], rest, TrimStart(s));
      assert s == [s[0]] + s[1..];
    }
  }

  lemma {:induction false} TrimEndStrips(s: string) returns (after: string)
    ensures s == TrimEnd(s) + after && (forall c :: c in after ==> IsBlank(c))
    ensures TrimEnd(s) != "" ==> !IsBlank(TrimEnd(s)[|TrimEnd(s)| - 1]) && s != "" && TrimEnd(s)[0] == s[0]
  {
    after := "";
    if s != "" && IsBlank(s[|s| - 1]) {
      var rest := TrimEndStrips(s[..|s| - 1]);
      after := rest + [s[|s| - 1]];
      Assoc(TrimEnd(s), rest, [s[|s| - 1]]);
      assert s == s[..|s| - 1] + [s[|s| - 1]];
    }
  }

  /** Padded with zeros to six places, or cut there. */
  function SixPlaces(f: string): (r: string)
    requires AllDigits(f)
    ensures |r| == 6 && AllDigits(r)
  {
    if |f| >= 6 then f[..6] else f + Zeros(6 - |f|)
  }

  function DecimalToUnits(decimal: string): Result<nat, AmountError> {
    var trimmed := Trim(decimal);
    if !Plain(trimmed) then Err(NotPlainDecimal)
    else
      ValueOfConcat(SplitOnce(trimmed).whole, SixPlaces(Fraction(trimmed)));
      Ok(Value(SplitOnce(trimmed).whole + SixPlaces(Fraction(trimmed))))
  }

  lemma {:induction false} ValueBelow(s: string)
    requires AllDigits(s)
    ensures Value(s) < Pow10(|s|)
  {
    if s != "" {
      ValueBelow(s[..|s| - 1]);
    }
  }

  /** Dropping digits divides and rounds down. */
  lemma ValueOfPrefix(s: string, n: nat)
    requires AllDigits(s) && n <= |s|
    ensures Value(s[..n]) == Value(s) / Pow10(|s| - n)
  {
    var high, low := s[..n], s[n..];
    assert s == high + low;
    ValueOfConcat(high, low);
    ValueBelow(low);
    Quotient(Value(s), Pow10(|low|), Value(high), Value(low));
  }

  lemma ScaleUp(s: string, k: nat)
    requires AllDigits(s)
    ensures AllDigits(s + Zeros(k)) && Value(s + Zeros(k)) == Value(s) * Pow10(k)
  {
    ValueOfConcat(s, Zeros(k));
    ValueOfZeros(k);
  }

  /** The parser returns the millionfold of the number, rounded down; any other text is refused. */
  lemma ParsesMillionths(decimal: string)
    ensures DecimalToUnits(decimal).Ok? <==> Plain(Trim(decimal))
    ensures Plain(Trim(decimal)) ==>
              DecimalToUnits(decimal).value == Numerator(Trim(decimal)) * Pow10(6) / Pow10(Places(Trim(decimal)))
  {
    var s := Trim(decimal);
    if Plain(s) {
      var w, f := SplitOnce(s).whole, Fraction(s);
      ValueOfConcat(w, f);
      if |f| >= 6 {
        assert w + f[..6] == (w + f)[..|w| + 6];
        ValueOfPrefix(w + f, |w| + 6);
        PowAdd(6, |f| - 6);
        CancelScale(Value(w + f), Pow10(6), Pow10(|f| - 6));
      } else {
        assert w + (f + Zeros(6 - |f|)) == w + f + Zeros(6 - |f|);
        ScaleUp(w + f, 6 - |f|);
        PowAdd(6 - |f|, |f|);
        ExactScale(Value(w + f), Pow10(6 - |f|), Pow10(|f|));
      }
    }
  }

  lemma CancelScale(n: nat, a: nat, b: nat)
    requires a > 0 && b > 0
    ensures a * b > 0 && n * a / (a * b) == n / b
  {
    var q, r := n / b, n % b;
    assert n == q * b + r;
    assert n * a == q * (a * b) + r * a;
    assert r * a < b * a;
    Quotient(n * a, a * b, q, r * a);
  }

  lemma ExactScale(n: nat, a: nat, b: nat)
    requires b > 0
    ensures n * (a * b) / b == n * a
  {
    assert n * (a * b) == (n * a) * b + 0;
    Quotient(n * (a * b), b, n * a, 0);
  }

  // ------------------------------------------------------------ printing

  function PadStart(s: string, n: nat): string {
    if |s| >= n then s else Zeros(n - |s|) + s
  }

  /** Trailing zeros removed, down to `keep` characters. */
  function TrimZeros(f: string, keep: nat): string {
    if |f| > keep && f[|f| - 1] == '0' then TrimZeros(f[..|f| - 1], keep) else f
  }

  function Join(whole: string, fraction: string): string {
    if fraction != "" then whole + ("." + fraction) else whole
  }

  /** At least one digit before the point and `decimals` after it. */
  function Digits(value: nat, decimals: nat): (s: string)
    ensures |s| > decimals
  {
    PadStart(Print(value), decimals + 1)
  }

  function Unsigned(value: nat, decimals: nat, keep: nat): string {
    var text := Digits(value, decimals);
    Join(text[..|text| - decimals], TrimZeros(text[|text| - decimals..], keep))
  }

  function FmtUnits(value: int, decimals: nat): string {
    if value < 0 then "-" + Unsigned(-value, decimals, 0) else Unsigned(value, decimals, 0)
  }

  lemma DigitsDenote(value: nat, decimals: nat)
    ensures AllDigits(Digits(value, decimals)) && Value(Digits(value, decimals)) == value
  {
    ValueOfPrint(value);
    if |Print(value)| <= decimals {
      var k := decimals + 1 - |Print(value)|;
      ValueOfConcat(Zeros(k), Print(value));
      ValueOfZeros(k);
    }
  }

  lemma {:induction false} TrimmedBack(f: string, keep: nat)
    requires AllDigits(f)
    ensures |TrimZeros(f, keep)| <= |f| && f == TrimZeros(f, keep) + Zeros(|f| - |TrimZeros(f, keep)|)
  {
    if |f| > keep && f[|f| - 1] == '0' {
      var g := f[..|f| - 1];
      TrimmedBack(g, keep);
      var t := TrimZeros(g, keep);
      assert f == g + ['0'];
      assert Zeros(|f| - |t|) == Zeros(|g| - |t|) + ['0'];
    }
  }

  lemma JoinDenotes(whole: string, fraction: string)
    requires whole != "" && AllDigits(whole) && AllDigits(fraction)
    ensures Plain(Join(whole, fraction)) && SplitOnce(Join(whole, fraction)).whole == whole && Fraction(Join(whole, fraction)) == fraction
  {
    SplitOfWhole(whole);
    SplitOfJoin(whole, fraction);
  }

  lemma TrimPlain(s: string)
    requires Plain(s)
    ensures Trim(s) == s
  {
    var p := SplitOnce(s);
    assert s[0] == p.whole[0];
    if p.fraction.Some? {
      var f := p.fraction.value;
      assert s[|s| - 1] == f[|f| - 1];
    } else {
      assert s == p.whole;
    }
  }

  lemma JoinValue(whole: string, fraction: string, zeros: nat)
    requires whole != "" && AllDigits(whole) && AllDigits(fraction)
    ensures AllDigits(whole + fraction + Zeros(zeros))
    ensures var s := Join(whole, fraction);
            Plain(s) && Places(s) == |fraction| && Numerator(s) * Pow10(zeros) == Value(whole + fraction + Zeros(zeros))
  {
    JoinDenotes(whole, fraction);
    ValueOfConcat(whole, fraction);
    ScaleUp(whole + fraction, zeros);
  }

  lemma TrimmedDigits(f: string, keep: nat)
    requires AllDigits(f)
    ensures AllDigits(TrimZeros(f, keep))
  {
    TrimmedBack(f, keep);
    var t := TrimZeros(f, keep);
    assert forall i :: 0 <= i < |t| ==> t[i] == f[i];
  }

  /** `s` is a plain decimal for `value` over ten to the `decimals`. */
  ghost predicate Denotes(s: string, value: nat, decimals: nat) {
    Plain(s) && Places(s) <= decimals && Numerator(s) * Pow10(decimals - Places(s)) == value
  }

  lemma CutDenotes(whole: string, fraction: string, keep: nat)
    requires whole != "" && AllDigits(whole) && AllDigits(fraction)
    ensures AllDigits(whole + fraction) && Denotes(Join(whole, TrimZeros(fraction, keep)), Value(whole + fraction), |fraction|)
  {
    var trimmed := TrimZeros(fraction, keep);
    TrimmedBack(fraction, keep);
    TrimmedDigits(fraction, keep);
    var zeros := |fraction| - |trimmed|;
    assert whole + fraction == whole + trimmed + Zeros(zeros);
    JoinValue(whole, trimmed, zeros);
  }

  /** The printed text denotes the value over ten to the decimals, however its zeros are trimmed. */
  lemma UnsignedDenotes(value: nat, decimals: nat, keep: nat)
    ensures Denotes(Unsigned(value, decimals, keep), value, decimals)
  {
    var text := Digits(value, decimals);
    DigitsDenote(value, decimals);
    var n := |text| - decimals;
    assert text == text[..n] + text[n..];
    CutDenotes(text[..n], text[n..], keep);
  }

  lemma {:induction false} TrimmedEnd(f: string, keep: nat)
    ensures var t := TrimZeros(f, keep);
            Min(keep, |f|) <= |t| <= |f| && (|t| > keep ==> t[|t| - 1] != '0')
  {
    if |f| > keep && f[|f| - 1] == '0' {
      TrimmedEnd(f[..|f| - 1], keep);
    }
  }

  /** The digits before the point start with a zero only when there is just one. */
  lemma WholeShape(value: nat, decimals: nat)
    ensures var text := Digits(value, decimals);
            |text| - decimals > 1 ==> text[0] != '0'
  {
    var text := Digits(value, decimals);
    if |Print(value)| > decimals {
      assert text == Print(value);
    }
  }

  lemma JoinShape(whole: string, fraction: string, keep: nat)
    requires whole != "" && AllDigits(whole) && AllDigits(fraction)
    ensures var s := Join(whole, TrimZeros(fraction, keep));
            && SplitOnce(s).whole == whole && Min(keep, |fraction|) <= Places(s) <= |fraction|
            && (Places(s) > keep ==> Fraction(s)[Places(s) - 1] != '0')
  {
    TrimmedDigits(fraction, keep);
    TrimmedEnd(fraction, keep);
    JoinDenotes(whole, TrimZeros(fraction, keep));
  }

  /**
   * The printed text is the one canonical text of its value: no leading zero, as few places as
   * the value needs but at least the number asked for, or all there are.
   */
  lemma UnsignedShape(value: nat, decimals: nat, keep: nat)
    ensures var s := Unsigned(value, decimals, keep);
            && Denotes(s, value, decimals)
            && (|SplitOnce(s).whole| > 1 ==> SplitOnce(s).whole[0] != '0')
            && Min(keep, decimals) <= Places(s) <= decimals
            && (Places(s) > keep ==> Fraction(s)[Places(s) - 1] != '0')
  {
    UnsignedDenotes(value, decimals, keep);
    DigitsDenote(value, decimals);
    WholeShape(value, decimals);
    var text := Digits(value, decimals);
    JoinShape(text[..|text| - decimals], text[|text| - decimals..], keep);
  }

  lemma DenotedReads(s: string, value: nat, decimals: nat)
    requires Denotes(s, value, decimals)
    ensures DecimalToUnits(s) == Ok(value * Pow10(6) / Pow10(decimals))
  {
    TrimPlain(s);
    ParsesMillionths(s);
    var n, k := Numerator(s), Places(s);
    var a, b, m := Pow10(decimals - k), Pow10(k), Pow10(6);
    assert Pow10(decimals) == a * b by {
      PowAdd(decimals - k, k);
    }
    SameRatio(n, a, b, m);
  }

  /** Reading a printed unit count back gives it in millionths, rounded down. */
  lemma ReadsBack(value: nat, decimals: nat, keep: nat)
    ensures DecimalToUnits(Unsigned(value, decimals, keep)) == Ok(value * Pow10(6) / Pow10(decimals))
  {
    UnsignedDenotes(value, decimals, keep);
    DenotedReads(Unsigned(value, decimals, keep), value, decimals);
  }

  lemma SameRatio(n: nat, a: nat, b: nat, m: nat)
    requires a > 0 && b > 0
    ensures a * b > 0 && n * a * m / (a * b) == n * m / b
  {
    assert n * a * m == n * m * a;
    CancelScale(n * m, a, b);
  }

  /** For six-decimal units that is the count itself; a negative amount is refused. */
  lemma FmtUnitsRoundTrip(value: int)
    ensures DecimalToUnits(FmtUnits(value, 6)) == if value >= 0 then Ok(value) else Err(NotPlainDecimal)
  {
    if value >= 0 {
      ReadsBack(value, 6, 0);
      SixDecimalsExact(value);
    } else {
      SignedRefused(Unsigned(-value, 6, 0)) by {
        UnsignedDenotes(-value, 6, 0);
      }
    }
  }

  lemma SignedRefused(s: string)
    requires Plain(s)
    ensures DecimalToUnits("-" + s) == Err(NotPlainDecimal)
  {
    TrimPlain(s);
    assert s != "" && ("-" + s)[|s|] == s[|s| - 1];
    assert Trim("-" + s) == "-" + s;
    var p := SplitOnce("-" + s);
    assert p.whole != "" ==> p.whole[0] == ("-" + s)[0];
  }

  // ------------------------------------------------------------ the web formatter

  /** How many digits follow from `i` on. */
  function Run(s: string, i: nat): nat
    requires i <= |s|
    decreases |s| - i
  {
    if i < |s| && IsDigit(s[i]) then 1 + Run(s, i + 1) else 0
  }

  predicate IsWordChar(c: char) {
    IsDigit(c) || 'a' <= c <= 'z' || 'A' <= c <= 'Z' || c == '_'
  }

  /** A comma goes before every position inside a word from which the digits come in threes. */
  predicate CommaBefore(s: string, i: nat)
    requires i < |s|
  {
    i > 0 && IsWordChar(s[i - 1]) && Run(s, i) > 0 && Run(s, i) % 3 == 0
  }

  function GroupFrom(s: string, i: nat): string
    requires i <= |s|
    decreases |s| - i
  {
    if i == |s| then "" else (if CommaBefore(s, i) then "," else "") + [s[i]] + GroupFrom(s, i + 1)
  }

  function GroupThrees(s: string): string {
    GroupFrom(s, 0)
  }

  function GroupDigits(decimal: string): string {
    var p := SplitOnce(decimal);
    if p.fraction.None? then GroupWhole(p.whole) else GroupWhole(p.whole) + "." + SplitOnce(p.fraction.value).whole
  }

  function Formatted(value: int, decimals: nat, minFraction: nat): string {
    if value < 0 then "-" + GroupDigits(Unsigned(-value, decimals, minFraction)) else GroupDigits(Unsigned(value, decimals, minFraction))
  }

  method FormatBaseUnits(value: int, decimals: nat, minFraction: nat) returns (r: string)
    ensures r == Formatted(value, decimals, minFraction)
    ensures value < 0 ==> r == "-" + Formatted(-value, decimals, minFraction)
  {
    var negative := value < 0;
    var magnitude: nat := if negative then -value else value;
    var digits := PadStart(Print(magnitude), decimals + 1);
    assert digits == Digits(magnitude, decimals);
    var whole := digits[..|digits| - decimals];
    var fraction := if decimals == 0 then "" else digits[|digits| - decimals..];
    while |fraction| > minFraction && fraction[|fraction| - 1] == '0'
      invariant TrimZeros(fraction, minFraction) == TrimZeros(digits[|digits| - decimals..], minFraction)
      decreases |fraction|
    {
      fraction := fraction[..|fraction| - 1];
    }
    var body := if fraction != "" then whole + ("." + fraction) else whole;
    assert body == Unsigned(magnitude, decimals, minFraction);
    return if negative then "-" + GroupDigits(body) else GroupDigits(body);
  }

  function RemoveCommas(s: string): string {
    if s == "" then "" else (if s[0] == ',' then "" else [s[0]]) + RemoveCommas(s[1..])
  }

  lemma {:induction false} RemoveConcat(a: string, b: string)
    ensures RemoveCommas(a + b) == RemoveCommas(a) + RemoveCommas(b)
  {
    if a == "" {
      assert a + b == b;
    } else {
      assert (a + b)[1..] == a[1..] + b;
      RemoveConcat(a[1..], b);
    }
  }

  lemma {:induction false} RemoveNothing(s: string)
    requires ',' !in s
    ensures RemoveCommas(s) == s
  {
    if s != "" {
      RemoveNothing(s[1..]);
      assert s == [s[0]] + s[1..];
    }
  }

  lemma {:induction false} GroupingAddsCommas(s: string, i: nat)
    requires ',' !in s && i <= |s|
    ensures RemoveCommas(GroupFrom(s, i)) == s[i..]
    decreases |s| - i
  {
    if i < |s| {
      GroupingAddsCommas(s, i + 1);
      var comma := if CommaBefore(s, i) then "," else "";
      RemoveConcat(comma + [s[i]], GroupFrom(s, i + 1));
      RemoveConcat(comma, [s[i]]);
      assert [s[i]][1..] == "" && RemoveCommas(",") == "";
      assert s[i..] == [s[i]] + s[i + 1..];
    }
  }

  function GroupWhole(whole: string): string {
    if whole != "" && whole[0] == '-' then "-" + GroupThrees(whole[1..]) else GroupThrees(whole)
  }

  lemma GroupWholeAddsCommas(whole: string)
    requires ',' !in whole
    ensures RemoveCommas(GroupWhole(whole)) == whole
  {
    if whole != "" && whole[0] == '-' {
      var digits := whole[1..];
      GroupingAddsCommas(digits, 0);
      RemoveNothing("-");
      RemoveConcat("-", GroupThrees(digits));
      assert whole == "-" + digits;
    } else {
      GroupingAddsCommas(whole, 0);
    }
  }

  /** Grouping only adds commas: for any text without one that has at most one point, removing them restores it. */
  lemma {:induction false} GroupDigitsAddsCommas(decimal: string)
    requires ',' !in decimal
    requires SplitOnce(decimal).fraction.Some? ==> '.' !in SplitOnce(decimal).fraction.value
    ensures RemoveCommas(GroupDigits(decimal)) == decimal
  {
    var p := SplitOnce(decimal);
    if p.fraction.Some? {
      GroupBothParts(decimal, p.whole, p.fraction.value);
    } else {
      assert decimal == p.whole;
      GroupWholeAddsCommas(p.whole);
    }
  }

  lemma {:induction false} GroupBothParts(decimal: string, whole: string, f: string)
    requires SplitOnce(decimal) == Parts(whole, Some(f)) && '.' !in f
    requires decimal == whole + ("." + f) && ',' !in decimal
    ensures RemoveCommas(GroupDigits(decimal)) == decimal
  {
    assert forall i :: 0 <= i < |whole| ==> whole[i] == decimal[i];
    assert forall i :: 0 <= i < |f| ==> f[i] == decimal[|whole| + 1 + i];
    GroupWholeAddsCommas(whole);
    SplitOfWhole(f);
    RemoveFromWhole(GroupWhole(whole), f);
  }

  lemma RemoveFromWhole(grouped: string, f: string)
    requires ',' !in f
    ensures RemoveCommas(grouped + "." + f) == RemoveCommas(grouped) + ("." + f)
  {
    RemoveNothing("." + f);
    RemoveConcat(grouped, "." + f);
    assert grouped + "." + f == grouped + ("." + f);
  }

  lemma {:induction false} RunOfDigits(s: string, i: nat)
    requires AllDigits(s) && i <= |s|
    ensures Run(s, i) == |s| - i
    decreases |s| - i
  {
    if i < |s| {
      RunOfDigits(s, i + 1);
    }
  }

  /** The groups of a digit text, from the right, are of three digits. */
  function Threes(s: string): string {
    if |s| <= 3 then s else Threes(s[..|s| - 3]) + "," + s[|s| - 3..]
  }

  lemma {:induction false} SameComma(s: string, t: string, i: nat)
    requires AllDigits(s) && AllDigits(t) && |t| == 3 && i < |s|
    ensures CommaBefore(s + t, i) == CommaBefore(s, i) && (s + t)[i] == s[i]
  {
    RunOfDigits(s + t, i);
    RunOfDigits(s, i);
  }

  lemma {:induction false} GroupFromFar(s: string, t: string, i: nat)
    requires AllDigits(s) && AllDigits(t) && |t| == 3 && i <= |s| && |s| > 0
    ensures GroupFrom(s + t, i) == GroupFrom(s, i) + "," + t
    decreases |s| - i
  {
    if i < |s| {
      GroupFromFar(s, t, i + 1);
      SameComma(s, t, i);
      var head := (if CommaBefore(s, i) then "," else "") + [s[i]];
      Regroup(head, GroupFrom(s, i + 1), ",", t);
    } else {
      LastGroup(s, t);
    }
  }

  lemma {:induction false} LastGroup(s: string, t: string)
    requires AllDigits(s) && AllDigits(t) && |t| == 3 && |s| > 0
    ensures GroupFrom(s + t, |s|) == "," + t
  {
    var all, n := s + t, |s|;
    RunOfDigits(all, n);
    RunOfDigits(all, n + 1);
    RunOfDigits(all, n + 2);
    assert GroupFrom(all, n + 3) == "";
    assert GroupFrom(all, n + 2) == [t[2]];
    assert GroupFrom(all, n + 1) == [t[1]] + [t[2]];
    assert GroupFrom(all, n) == "," + [t[0]] + ([t[1]] + [t[2]]);
    assert t == [t[0], t[1], t[2]];
  }

  lemma {:induction false} GroupsAreThrees(s: string)
    requires AllDigits(s)
    ensures GroupThrees(s) == Threes(s)
  {
    if |s| > 3 {
      GroupsAreThrees(s[..|s| - 3]);
      GroupFromFar(s[..|s| - 3], s[|s| - 3..], 0);
      assert s == s[..|s| - 3] + s[|s| - 3..];
    } else {
      ShortUngrouped(s, 0);
    }
  }

  lemma {:induction false} ShortUngrouped(s: string, i: nat)
    requires AllDigits(s) && |s| <= 3 && i <= |s|
    ensures GroupFrom(s, i) == s[i..]
    decreases |s| - i
  {
    if i < |s| {
      RunOfDigits(s, i);
      ShortUngrouped(s, i + 1);
    }
  }

  lemma PlainHasNoComma(s: string)
    requires Plain(s)
    ensures ',' !in s
    ensures SplitOnce(s).fraction.Some? ==> '.' !in SplitOnce(s).fraction.value
  {
  }

  lemma GroupedPlain(s: string)
    requires Plain(s)
    ensures RemoveCommas(GroupDigits(s)) == s
  {
    PlainHasNoComma(s);
    GroupDigitsAddsCommas(s);
  }

  lemma SixDecimalsExact(value: nat)
    ensures value * Pow10(6) / Pow10(6) == value
  {
    Quotient(value * Pow10(6), Pow10(6), value, 0);
  }

  /** What the checkout shows, with its commas removed, reads back as the exact unit count. */
  lemma FormattedRoundTrip(value: nat, minFraction: nat)
    ensures DecimalToUnits(RemoveCommas(Formatted(value, 6, minFraction))) == Ok(value)
  {
    var body := Unsigned(value, 6, minFraction);
    GroupedPlain(body) by {
      UnsignedDenotes(value, 6, minFraction);
    }
    ReadsBack(value, 6, minFraction);
    SixDecimalsExact(value);
  }

  // ------------------------------------------------------------ the server parser

  function FromDecimalStr(s: string, decimals: nat): Result<nat, AmountError> {
    var p := SplitOnce(s);
    var fraction := Fraction(s);
    if p.whole == "" || !AllDigits(p.whole) || !AllDigits(fraction) || ('.' in s && fraction == "") then Err(InvalidFormat)
    else if |fraction| > decimals then Err(TooManyDecimalUnits)
    else
      ValueOfConcat(p.whole, fraction + Zeros(decimals - |fraction|));
      var units := Value(p.whole + (fraction + Zeros(decimals - |fraction|)));
      if units >= U256_LIMIT then Err(UnitsOverflow) else Ok(units)
  }

  /** It accepts exactly the plain decimals of few enough places that fit, and then exactly. */
  lemma ServerParses(s: string, decimals: nat)
    ensures FromDecimalStr(s, decimals) ==
              if !Plain(s) then Err(InvalidFormat)
              else if Places(s) > decimals then Err(TooManyDecimalUnits)
              else if Numerator(s) * Pow10(decimals - Places(s)) >= U256_LIMIT then Err(UnitsOverflow)
              else Ok(Numerator(s) * Pow10(decimals - Places(s)))
  {
    var p := SplitOnce(s);
    assert '.' in s <==> p.fraction.Some?;
    if Plain(s) && Places(s) <= decimals {
      var f := Fraction(s);
      ValueOfConcat(p.whole, f);
      assert p.whole + (f + Zeros(decimals - |f|)) == p.whole + f + Zeros(decimals - |f|);
      ScaleUp(p.whole + f, decimals - |f|);
    }
  }

  /** Every amount the server accepts at six decimals is the same amount to the harness. */
  lemma ParsersAgree(s: string)
    requires FromDecimalStr(s, 6).Ok?
    ensures DecimalToUnits(s) == Ok(FromDecimalStr(s, 6).value)
  {
    ServerParses(s, 6);
    TrimPlain(s);
    ParsesMillionths(s);
    var n, k := Numerator(s), Places(s);
    PowAdd(6 - k, k);
    ExactScale(n, Pow10(6 - k), Pow10(k));
  }
}
