/**
 * Canonical JSON text (RFC 8785 section 3.2, which is also how
 * `JSON.stringify` writes a value without spacing), a reader of JSON texts
 * (RFC 8259), and the proof that reading undoes writing.
 */
module Json {
  import opened Prelude
  import Decimal

  datatype Json =
    | Null
    | Bool(b: bool)
    | Num(n: nat)
    | Str(s: string)
    | Arr(items: seq<Json>)
    | Obj(members: seq<Member>)

  datatype Member = Member(key: string, value: Json)

  /** One character of a string literal (RFC 8785 section 3.2.2.2). */
  function Escape(c: char): (t: string)
    ensures |t| > 0 && t[0] != '"'
  {
    var n := c as int;
    if c == '"' then "\\\""
    else if c == '\\' then "\\\\"
    else if n == 8 then "\\b"
    else if n == 9 then "\\t"
    else if n == 10 then "\\n"
    else if n == 12 then "\\f"
    else if n == 13 then "\\r"
    else if n < 32 then "\\u00" + [HexDigit(n / 16), HexDigit(n % 16)]
    else [c]
  }

  function EscapeAll(s: string): string {
    if s == [] then [] else Escape(s[0]) + EscapeAll(s[1..])
  }

  function Quote(s: string): string {
    "\"" + EscapeAll(s) + "\""
  }

  function Write(j: Json): string
    decreases j, 1
  {
    match j
    case Null => "null"
    case Bool(b) => if b then "true" else "false"
    case Num(n) => Decimal.Print(n)
    case Str(s) => Quote(s)
    case Arr(items) => if items == [] then "[]" else "[" + (Write(items[0]) + WriteItems(items[1..]))
    case Obj(members) => if members == [] then "{}" else "{" + (WriteMember(members[0]) + WriteMembers(members[1..]))
  }

  /** The rest of an array after an element. */
  function WriteItems(items: seq<Json>): string
    decreases items, 0
  {
    if items == [] then "]" else "," + (Write(items[0]) + WriteItems(items[1..]))
  }

  function WriteMember(m: Member): string
    decreases m, 0
  {
    Quote(m.key) + (":" + Write(m.value))
  }

  /** The rest of an object after a member. */
  function WriteMembers(members: seq<Member>): string
    decreases members, 0
  {
    if members == [] then "}" else "," + (WriteMember(members[0]) + WriteMembers(members[1..]))
  }

  // ------------------------------------------------------------ a reader

  function HexValue(c: char): Option<nat> {
    if '0' <= c <= '9' then Some(c as int - '0' as int)
    else if 'a' <= c <= 'f' then Some(c as int - 'a' as int + 10)
    else if 'A' <= c <= 'F' then Some(c as int - 'A' as int + 10)
    else None
  }

  /** The code a two-character escape stands for. */
  function ShortEscape(c: char): Option<char> {
    if c == '"' || c == '\\' || c == '/' then Some(c)
    else if c == 'b' then Some(8 as char)
    else if c == 'f' then Some(12 as char)
    else if c == 'n' then Some(10 as char)
    else if c == 'r' then Some(13 as char)
    else if c == 't' then Some(9 as char)
    else None
  }

  /** One character of a string literal (RFC 8259 section 7), and the text after it. */
  function ReadChar(t: string): (r: Option<(char, string)>)
    ensures r.Some? ==> |r.value.1| < |t|
  {
    if t == [] || t[0] == '"' || t[0] as int < 32 then None
    else if t[0] != '\\' then Some((t[0], t[1..]))
    else if |t| < 2 then None
    else if t[1] == 'u' then
      if |t| < 6 then None
      else
        var a, b, c, d := HexValue(t[2]), HexValue(t[3]), HexValue(t[4]), HexValue(t[5]);
        if a.None? || b.None? || c.None? || d.None? then None
        else
          var code := ((a.value * 16 + b.value) * 16 + c.value) * 16 + d.value;
          if code < 0xD800 then Some((code as char, t[6..])) else None
    else
      var e := ShortEscape(t[1]);
      if e.None? then None else Some((e.value, t[2..]))
  }

  /** The characters up to the closing quote. */
  function ReadChars(t: string): (r: Option<(string, string)>)
    ensures r.Some? ==> |r.value.1| < |t|
    decreases |t|
  {
    if t != [] && t[0] == '"' then Some(("", t[1..]))
    else
      var first := ReadChar(t);
      if first.None? then None
      else
        var rest := ReadChars(first.value.1);
        if rest.None? then None else Some(([first.value.0] + rest.value.0, rest.value.1))
  }

  function ReadString(t: string): (r: Option<(string, string)>)
    ensures r.Some? ==> |r.value.1| < |t|
  {
    if t == [] || t[0] != '"' then None else ReadChars(t[1..])
  }

  /** How many digits a text starts with. */
  function DigitsIn(t: string): (n: nat)
    ensures n <= |t| && Decimal.AllDigits(t[..n]) && (n == |t| || !Decimal.IsDigit(t[n]))
  {
    if t == [] || !Decimal.IsDigit(t[0]) then 0 else 1 + DigitsIn(t[1..])
  }

  /** A value (RFC 8259 section 3) without spacing; its numbers are the naturals. */
  function ReadValue(t: string): (r: Option<(Json, string)>)
    ensures r.Some? ==> |r.value.1| < |t|
    decreases |t|, 1
  {
    if t == [] then None
    else if t[0] == 'n' then if "null" <= t then Some((Null, t[4..])) else None
    else if t[0] == 't' then if "true" <= t then Some((Bool(true), t[4..])) else None
    else if t[0] == 'f' then if "false" <= t then Some((Bool(false), t[5..])) else None
    else if t[0] == '"' then
      var s := ReadString(t);
      if s.None? then None else Some((Str(s.value.0), s.value.1))
    else if t[0] == '[' then
      if |t| > 1 && t[1] == ']' then Some((Arr([]), t[2..]))
      else
        var items := ReadItems(t[1..]);
        if items.None? then None else Some((Arr(items.value.0), items.value.1))
    else if t[0] == '{' then
      if |t| > 1 && t[1] == '}' then Some((Obj([]), t[2..]))
      else
        var members := ReadMembers(t[1..]);
        if members.None? then None else Some((Obj(members.value.0), members.value.1))
    else
      var n := DigitsIn(t);
      if n == 0 || (n > 1 && t[0] == '0') then None else Some((Num(Decimal.Value(t[..n])), t[n..]))
  }

  /** Values separated by commas, up to the closing bracket. */
  function ReadItems(t: string): (r: Option<(seq<Json>, string)>)
    ensures r.Some? ==> |r.value.1| < |t|
    decreases |t|, 2
  {
    var first := ReadValue(t);
    if first.None? || first.value.1 == [] then None
    else
      var rest := first.value.1;
      if rest[0] == ']' then Some(([first.value.0], rest[1..]))
      else if rest[0] != ',' then None
      else
        var more := ReadItems(rest[1..]);
        if more.None? then None else Some(([first.value.0] + more.value.0, more.value.1))
  }

  /** A name, a colon and a value. */
  function ReadMember(t: string): (r: Option<(Member, string)>)
    ensures r.Some? ==> |r.value.1| < |t|
    decreases |t|, 2
  {
    var key := ReadString(t);
    if key.None? || key.value.1 == [] || key.value.1[0] != ':' then None
    else
      var value := ReadValue(key.value.1[1..]);
      if value.None? then None else Some((Member(key.value.0, value.value.0), value.value.1))
  }

  function ReadMembers(t: string): (r: Option<(seq<Member>, string)>)
    ensures r.Some? ==> |r.value.1| < |t|
    decreases |t|, 3
  {
    var first := ReadMember(t);
    if first.None? || first.value.1 == [] then None
    else
      var rest := first.value.1;
      if rest[0] == '}' then Some(([first.value.0], rest[1..]))
      else if rest[0] != ',' then None
      else
        var more := ReadMembers(rest[1..]);
        if more.None? then None else Some(([first.value.0] + more.value.0, more.value.1))
  }

  // ------------------------------------------------------------ strings read back

  lemma ShortEscaped(c: char, x: string)
    requires |Escape(c)| == 2
    ensures ReadChar(Escape(c) + x) == Some((c, x))
  {
    assert (Escape(c) + x)[2..] == x;
  }

  lemma LongEscaped(c: char, x: string)
    requires |Escape(c)| == 6
    ensures ReadChar(Escape(c) + x) == Some((c, x))
  {
    var t := Escape(c) + x;
    var n := c as int;
    assert t[2] == '0' && t[3] == '0' && t[4] == HexDigit(n / 16) && t[5] == HexDigit(n % 16);
    assert HexValue(t[4]) == Some(n / 16) && HexValue(t[5]) == Some(n % 16);
    assert t[6..] == x;
  }

  lemma EscapedReads(c: char, x: string)
    ensures ReadChar(Escape(c) + x) == Some((c, x))
  {
    if |Escape(c)| == 2 {
      ShortEscaped(c, x);
    } else if |Escape(c)| == 6 {
      LongEscaped(c, x);
    } else {
      assert ([c] + x)[1..] == x;
    }
  }

  lemma {:induction false} CharsRead(s: string, x: string)
    ensures ReadChars(EscapeAll(s) + ("\"" + x)) == Some((s, x))
    decreases |s|
  {
    if s == [] {
      assert EscapeAll(s) + ("\"" + x) == "\"" + x;
      assert ("\"" + x)[1..] == x;
    } else {
      var rest := EscapeAll(s[1..]) + ("\"" + x);
      Assoc(Escape(s[0]), EscapeAll(s[1..]), "\"" + x);
      assert (Escape(s[0]) + rest)[0] == Escape(s[0])[0];
      EscapedReads(s[0], rest);
      CharsRead(s[1..], x);
      assert s == [s[0]] + s[1..];
    }
  }

  lemma {:induction false} StringReads(s: string, x: string)
    ensures ReadString(Quote(s) + x) == Some((s, x))
  {
    QuoteText(s, x);
    assert (Quote(s) + x)[0] == '"';
    CharsRead(s, x);
  }

  lemma QuoteText(s: string, x: string)
    ensures (Quote(s) + x)[1..] == EscapeAll(s) + ("\"" + x)
  {
    Assoc("\"" + EscapeAll(s), "\"", x);
    Assoc("\"", EscapeAll(s), "\"" + x);
  }

  /** What each character becomes: itself, or the shortest escape there is for it. */
  lemma EscapeIsShortest(c: char)
    ensures |Escape(c)| == 1 <==> c as int >= 32 && c != '"' && c != '\\'
    ensures |Escape(c)| == 2 <==> exists e :: e != '/' && ShortEscape(e) == Some(c)
    ensures |Escape(c)| == 6 ==> forall i :: 1 <= i < 6 ==> !('A' <= Escape(c)[i] <= 'Z')
  {
    if |Escape(c)| == 2 {
      assert ShortEscape(Escape(c)[1]) == Some(c);
    } else if |Escape(c)| == 6 {
      var t, n := Escape(c), c as int;
      assert t == "\\u00" + [HexDigit(n / 16), HexDigit(n % 16)];
      assert t[4] == HexDigit(n / 16) && t[5] == HexDigit(n % 16);
    }
  }

  // ------------------------------------------------------------ values read back

  /** What may follow a value: the end, or anything a number could not continue with. */
  predicate Stops(x: string) {
    x == [] || !Decimal.IsDigit(x[0])
  }

  /** The first character tells the kind of value. */
  predicate StartsLike(j: Json, c: char) {
    match j
    case Null => c == 'n'
    case Bool(b) => c == (if b then 't' else 'f')
    case Num(_) => Decimal.IsDigit(c)
    case Str(_) => c == '"'
    case Arr(_) => c == '['
    case Obj(_) => c == '{'
  }

  lemma {:induction false} WriteStarts(j: Json)
    ensures |Write(j)| > 0 && StartsLike(j, Write(j)[0])
  {
  }

  lemma {:induction false} TailsStop(items: seq<Json>, members: seq<Member>, x: string)
    ensures Stops(WriteItems(items) + x) && Stops(WriteMembers(members) + x)
  {
  }

  lemma AfterFirst(c: char, p: string, q: string, x: string)
    ensures (([c] + (p + q)) + x)[1..] == p + (q + x)
  {
  }

  lemma {:induction false} ArrText(a: seq<Json>, x: string)
    ensures var t := Write(Arr(a)) + x;
            && |t| > 1 && (t[1] == ']' <==> a == [])
            && (if a == [] then t[2..] == x else t[1..] == Write(a[0]) + (WriteItems(a[1..]) + x))
  {
    var t := Write(Arr(a)) + x;
    if a != [] {
      WriteStarts(a[0]);
      AfterFirst('[', Write(a[0]), WriteItems(a[1..]), x);
      assert t[1] == Write(a[0])[0];
    }
  }

  lemma {:induction false} ItemsText(a: seq<Json>, x: string)
    ensures var t := WriteItems(a) + x;
            && |t| > 0 && t[0] == (if a == [] then ']' else ',')
            && (if a == [] then t[1..] == x else t[1..] == Write(a[0]) + (WriteItems(a[1..]) + x))
  {
    if a != [] {
      AfterFirst(',', Write(a[0]), WriteItems(a[1..]), x);
    }
  }

  lemma {:induction false} ObjText(a: seq<Member>, x: string)
    ensures var t := Write(Obj(a)) + x;
            && |t| > 1 && (t[1] == '}' <==> a == [])
            && (if a == [] then t[2..] == x else t[1..] == WriteMember(a[0]) + (WriteMembers(a[1..]) + x))
  {
    var t := Write(Obj(a)) + x;
    if a != [] {
      AfterFirst('{', WriteMember(a[0]), WriteMembers(a[1..]), x);
      assert WriteMember(a[0])[0] == '"';
      assert t[1] == WriteMember(a[0])[0];
    }
  }

  lemma {:induction false} MembersText(a: seq<Member>, x: string)
    ensures var t := WriteMembers(a) + x;
            && |t| > 0 && t[0] == (if a == [] then '}' else ',')
            && (if a == [] then t[1..] == x else t[1..] == WriteMember(a[0]) + (WriteMembers(a[1..]) + x))
  {
    if a != [] {
      AfterFirst(',', WriteMember(a[0]), WriteMembers(a[1..]), x);
    }
  }

  lemma {:induction false} MemberText(m: Member, x: string)
    ensures WriteMember(m) + x == Quote(m.key) + (":" + (Write(m.value) + x))
  {
    Assoc(Quote(m.key), ":" + Write(m.value), x);
    Assoc(":", Write(m.value), x);
  }

  lemma {:induction false} DigitsEnd(a: string, x: string)
    requires Decimal.AllDigits(a) && Stops(x)
    ensures DigitsIn(a + x) == |a|
  {
    if a == [] {
      assert a + x == x;
    } else {
      DigitsEnd(a[1..], x);
      assert (a + x)[1..] == a[1..] + x;
    }
  }

  lemma {:induction false} NumReads(n: nat, x: string)
    requires Stops(x)
    ensures ReadValue(Write(Num(n)) + x) == Some((Num(n), x))
  {
    var a := Decimal.Print(n);
    DigitsEnd(a, x);
    Decimal.ValueOfPrint(n);
    assert (a + x)[0] == a[0] && (a + x)[..|a|] == a && (a + x)[|a|..] == x;
  }

  lemma {:induction false} WordReads(j: Json, x: string)
    requires j.Null? || j.Bool?
    ensures ReadValue(Write(j) + x) == Some((j, x))
  {
    var w := Write(j);
    assert w <= w + x && (w + x)[0] == w[0] && (w + x)[|w|..] == x;
  }

  /** Reading undoes writing, whatever follows the value. */
  lemma {:induction false} ReadBack(j: Json, x: string)
    requires Stops(x)
    ensures ReadValue(Write(j) + x) == Some((j, x))
    decreases j, 1
  {
    WriteStarts(j);
    assert (Write(j) + x)[0] == Write(j)[0];
    match j {
      case Null => WordReads(j, x);
      case Bool(_) => WordReads(j, x);
      case Num(n) => NumReads(n, x);
      case Str(s) => StringReads(s, x);
      case Arr(items) =>
        ArrText(items, x);
        if items != [] {
          ItemsReadBack(items, x);
        }
      case Obj(members) =>
        ObjText(members, x);
        if members != [] {
          MembersReadBack(members, x);
        }
    }
  }

  lemma {:induction false} ItemsReadBack(items: seq<Json>, x: string)
    requires items != []
    ensures ReadItems(Write(items[0]) + (WriteItems(items[1..]) + x)) == Some((items, x))
    decreases items, 0
  {
    var rest := WriteItems(items[1..]) + x;
    TailsStop(items[1..], [], x);
    ReadBack(items[0], rest);
    ItemsText(items[1..], x);
    if items[1..] == [] {
      assert items == [items[0]];
    } else {
      ItemsReadBack(items[1..], x);
      assert ReadItems(rest[1..]) == Some((items[1..], x));
      assert items == [items[0]] + items[1..];
    }
  }

  lemma {:induction false} MemberReads(m: Member, x: string)
    requires Stops(x)
    ensures ReadMember(WriteMember(m) + x) == Some((m, x))
    decreases m, 0
  {
    var rest := ":" + (Write(m.value) + x);
    MemberText(m, x);
    StringReads(m.key, rest);
    assert rest[0] == ':' && rest[1..] == Write(m.value) + x;
    ReadBack(m.value, x);
  }

  lemma {:induction false} MembersReadBack(members: seq<Member>, x: string)
    requires members != []
    ensures ReadMembers(WriteMember(members[0]) + (WriteMembers(members[1..]) + x)) == Some((members, x))
    decreases members, 0
  {
    var rest := WriteMembers(members[1..]) + x;
    TailsStop([], members[1..], x);
    MemberReads(members[0], rest);
    MembersText(members[1..], x);
    if members[1..] == [] {
      assert members == [members[0]];
    } else {
      MembersReadBack(members[1..], x);
      assert ReadMembers(rest[1..]) == Some((members[1..], x));
      assert members == [members[0]] + members[1..];
    }
  }

  /** A JSON text: one value and nothing after it. */
  function ReadText(t: string): Option<Json> {
    var r := ReadValue(t);
    if r.Some? && r.value.1 == [] then Some(r.value.0) else None
  }

  /** A value's canonical text reads back as the value. */
  lemma WrittenReadsBack(j: Json)
    ensures ReadText(Write(j)) == Some(j)
  {
    ReadBack(j, []);
    assert Write(j) + [] == Write(j);
  }

  /** So canonical text is injective. */
  lemma WriteInjective(j: Json, k: Json)
    requires Write(j) == Write(k)
    ensures j == k
  {
    WrittenReadsBack(j);
    WrittenReadsBack(k);
  }
}
