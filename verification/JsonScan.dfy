/** Brackets in JSON text: what any JSON reader demands, and that a torn object never meets it. */
module JsonScan {
  import opened Json
  import Decimal

  /** Reading position: nesting depth, and whether inside a string literal or just after a backslash there. */
  datatype Mode = Out(depth: int) | In(depth: int) | Escaped(depth: int)

  function Next(m: Mode, c: char): Mode {
    match m
    case Out(d) =>
      if c == '"' then In(d)
      else if c == '{' || c == '[' then Out(d + 1)
      else if c == '}' || c == ']' then Out(d - 1)
      else m
    case In(d) => if c == '\\' then Escaped(d) else if c == '"' then Out(d) else m
    case Escaped(d) => In(d)
  }

  function Scan(m: Mode, s: string): Mode
    decreases |s|
  {
    if s == [] then m else Scan(Next(m, s[0]), s[1..])
  }

  /** All brackets and quotes are matched up: true of every JSON text. */
  predicate Closed(s: string) {
    Scan(Out(0), s) == Out(0)
  }

  /** Before every character the nesting is at least `d`. */
  predicate Over(m: Mode, s: string, d: int)
    decreases |s|
  {
    s == [] || (m.depth >= d && Over(Next(m, s[0]), s[1..], d))
  }

  lemma {:induction false} ScanConcat(m: Mode, a: string, b: string, d: int)
    ensures Scan(m, a + b) == Scan(Scan(m, a), b)
    ensures Over(m, a, d) && Over(Scan(m, a), b, d) ==> Over(m, a + b, d)
    decreases |a|
  {
    if a == [] {
      assert a + b == b;
    } else {
      assert (a + b)[1..] == a[1..] + b;
      ScanConcat(Next(m, a[0]), a[1..], b, d);
    }
  }

  lemma {:induction false} ScanCons(m: Mode, c: char, rest: string, d: int)
    ensures Scan(m, [c] + rest) == Scan(Next(m, c), rest)
    ensures m.depth >= d && Over(Next(m, c), rest, d) ==> Over(m, [c] + rest, d)
  {
    assert ([c] + rest)[1..] == rest;
  }

  lemma {:induction false} OverPrefix(m: Mode, s: string, d: int, k: nat)
    requires Over(m, s, d) && k < |s|
    ensures Scan(m, s[..k]).depth >= d
    decreases k
  {
    if k > 0 {
      assert s[..k][1..] == s[1..][..k - 1];
      OverPrefix(Next(m, s[0]), s[1..], d, k - 1);
    }
  }

  /** Text that leaves the nesting where it was and never goes below. */
  predicate Neutral(s: string, d: int) {
    Scan(Out(d), s) == Out(d) && Over(Out(d), s, d)
  }

  /** Text that closes one bracket at its very end. */
  predicate Closing(s: string, d: int) {
    Scan(Out(d), s) == Out(d - 1) && Over(Out(d), s, d)
  }

  lemma {:induction false} NeutralThen(a: string, b: string, d: int)
    requires Neutral(a, d)
    ensures Neutral(b, d) ==> Neutral(a + b, d)
    ensures Closing(b, d) ==> Closing(a + b, d)
  {
    ScanConcat(Out(d), a, b, d);
  }

  // ------------------------------------------------------------ strings

  lemma {:induction false} EscapeStaysIn(c: char, d: int)
    ensures Scan(In(d), Escape(c)) == In(d) && Over(In(d), Escape(c), d)
  {
    var t := Escape(c);
    if |t| == 1 {
      assert t == [t[0]] + [];
      ScanCons(In(d), t[0], [], d);
    } else if |t| == 2 {
      assert t == ['\\'] + ([t[1]] + []);
      ScanCons(Escaped(d), t[1], [], d);
      ScanCons(In(d), '\\', [t[1]] + [], d);
    } else {
      var x, y := t[4], t[5];
      assert t == ['\\'] + (['u'] + (['0'] + (['0'] + ([x] + ([y] + [])))));
      ScanCons(In(d), y, [], d);
      ScanCons(In(d), x, [y] + [], d);
      ScanCons(In(d), '0', [x] + ([y] + []), d);
      ScanCons(In(d), '0', ['0'] + ([x] + ([y] + [])), d);
      ScanCons(Escaped(d), 'u', ['0'] + (['0'] + ([x] + ([y] + []))), d);
      ScanCons(In(d), '\\', ['u'] + (['0'] + (['0'] + ([x] + ([y] + [])))), d);
    }
  }

  lemma {:induction false} EscapeAllStaysIn(s: string, d: int)
    ensures Scan(In(d), EscapeAll(s)) == In(d) && Over(In(d), EscapeAll(s), d)
  {
    if s != [] {
      EscapeStaysIn(s[0], d);
      EscapeAllStaysIn(s[1..], d);
      ScanConcat(In(d), Escape(s[0]), EscapeAll(s[1..]), d);
    }
  }

  lemma {:induction false} QuoteNeutral(s: string, d: int)
    ensures Neutral(Quote(s), d)
  {
    EscapeAllStaysIn(s, d);
    ScanCons(In(d), '"', [], d);
    ScanConcat(In(d), EscapeAll(s), ['"'] + [], d);
    ScanCons(Out(d), '"', EscapeAll(s) + (['"'] + []), d);
    assert Quote(s) == ['"'] + (EscapeAll(s) + (['"'] + []));
  }

  // ------------------------------------------------------------ values

  /** No quotes or brackets. */
  predicate Flat(s: string) {
    forall i :: 0 <= i < |s| ==> s[i] != '"' && s[i] != '{' && s[i] != '}' && s[i] != '[' && s[i] != ']'
  }

  lemma {:induction false} FlatNeutral(s: string, d: int)
    requires Flat(s)
    ensures Neutral(s, d)
  {
    if s != [] {
      FlatNeutral(s[1..], d);
    }
  }

  /** A bracket opened in front of text that closes it. */
  lemma {:induction false} Bracketed(open: char, body: string, d: int)
    requires (open == '{' || open == '[') && Closing(body, d + 1) && Over(Out(d + 1), body, d)
    ensures Neutral([open] + body, d)
  {
    assert ([open] + body)[1..] == body;
  }

  lemma {:induction false} OverLower(m: Mode, s: string, d: int)
    requires Over(m, s, d + 1)
    ensures Over(m, s, d)
    decreases |s|
  {
    if s != [] {
      OverLower(Next(m, s[0]), s[1..], d);
    }
  }

  lemma {:induction false} ValueNeutral(j: Json, d: int)
    ensures Neutral(Write(j), d)
    decreases j, 1
  {
    match j {
      case Null => FlatNeutral(Write(j), d);
      case Bool(_) => FlatNeutral(Write(j), d);
      case Num(_) => FlatNeutral(Write(j), d);
      case Str(s) => QuoteNeutral(s, d);
      case Arr(items) =>
        var body := if items == [] then "]" else Write(items[0]) + WriteItems(items[1..]);
        ArrayBody(items, d + 1);
        OverLower(Out(d + 1), body, d);
        Bracketed('[', body, d);
        assert Write(j) == ['['] + body;
      case Obj(members) =>
        var body := ObjectBody(members);
        ObjectBodyCloses(members, d + 1);
        OverLower(Out(d + 1), body, d);
        Bracketed('{', body, d);
        assert Write(j) == ['{'] + body;
    }
  }

  function ObjectBody(members: seq<Member>): string {
    if members == [] then "}" else WriteMember(members[0]) + WriteMembers(members[1..])
  }

  lemma {:induction false} ArrayBody(items: seq<Json>, d: int)
    ensures Closing(if items == [] then "]" else Write(items[0]) + WriteItems(items[1..]), d)
    decreases items, 0
  {
    if items == [] {
      var close := "]";
      assert close[1..] == [];
    } else {
      ValueNeutral(items[0], d);
      ItemsClose(items[1..], d);
      NeutralThen(Write(items[0]), WriteItems(items[1..]), d);
    }
  }

  lemma {:induction false} ItemsClose(items: seq<Json>, d: int)
    ensures Closing(WriteItems(items), d)
    decreases items, 1
  {
    if items == [] {
      assert WriteItems(items)[1..] == [];
    } else {
      ArrayBody(items, d);
      FlatNeutral(",", d);
      NeutralThen(",", Write(items[0]) + WriteItems(items[1..]), d);
    }
  }

  lemma {:induction false} MemberNeutral(m: Member, d: int)
    ensures Neutral(WriteMember(m), d)
    decreases m, 0
  {
    QuoteNeutral(m.key, d);
    FlatNeutral(":", d);
    ValueNeutral(m.value, d);
    NeutralThen(":", Write(m.value), d);
    NeutralThen(Quote(m.key), ":" + Write(m.value), d);
  }

  lemma {:induction false} ObjectBodyCloses(members: seq<Member>, d: int)
    ensures Closing(ObjectBody(members), d)
    decreases members, 0
  {
    if members == [] {
      assert ObjectBody(members)[1..] == [];
    } else {
      MemberNeutral(members[0], d);
      MembersClose(members[1..], d);
      NeutralThen(WriteMember(members[0]), WriteMembers(members[1..]), d);
    }
  }

  lemma {:induction false} MembersClose(members: seq<Member>, d: int)
    ensures Closing(WriteMembers(members), d)
    decreases members, 1
  {
    if members == [] {
      assert WriteMembers(members)[1..] == [];
    } else {
      ObjectBodyCloses(members, d);
      FlatNeutral(",", d);
      NeutralThen(",", ObjectBody(members), d);
    }
  }

  /** The text of a value is matched up. */
  lemma WriteCloses(j: Json)
    ensures Closed(Write(j))
  {
    ValueNeutral(j, 0);
  }

  lemma {:induction false} TornDepth(members: seq<Member>, k: nat)
    requires 0 < k < |Write(Obj(members))|
    ensures Scan(Out(0), Write(Obj(members))[..k]).depth >= 1
  {
    var body := ObjectBody(members);
    var text := Write(Obj(members));
    assert text == ['{'] + body;
    ObjectBodyCloses(members, 1);
    OverPrefix(Out(1), body, 1, k - 1);
    assert text[..k][1..] == body[..k - 1];
  }

  /** A beginning of an object's text, short of all of it, is not. */
  lemma TornObject(members: seq<Member>, k: nat)
    requires 0 < k < |Write(Obj(members))|
    ensures !Closed(Write(Obj(members))[..k])
  {
    TornDepth(members, k);
  }

  /** Nor is one that ends in a character that is no bracket, whatever it replaces. */
  lemma TornObjectReplaced(members: seq<Member>, k: nat, c: char)
    requires 0 < k < |Write(Obj(members))| && Flat([c])
    ensures !Closed(Write(Obj(members))[..k] + [c])
  {
    var torn := Write(Obj(members))[..k];
    TornDepth(members, k);
    ScanConcat(Out(0), torn, [c], 0);
    assert [c][1..] == [];
  }

  // ------------------------------------------------------------ one line

  /** No control characters, so in particular no line breaks. */
  predicate Printable(s: string) {
    forall i :: 0 <= i < |s| ==> s[i] >= ' '
  }

  lemma {:induction false} EscapePrintable(s: string)
    ensures Printable(EscapeAll(s))
  {
    if s != [] {
      EscapePrintable(s[1..]);
      assert Printable(Escape(s[0]));
    }
  }

  lemma {:induction false} WritePrintable(j: Json)
    ensures Printable(Write(j))
    decreases j, 1
  {
    match j {
      case Null =>
      case Bool(_) =>
      case Num(_) =>
      case Str(s) => EscapePrintable(s);
      case Arr(items) => ItemsPrintable(items);
      case Obj(members) => MembersPrintable(members);
    }
  }

  lemma {:induction false} ItemsPrintable(items: seq<Json>)
    ensures Printable(WriteItems(items))
    ensures items != [] ==> Printable(Write(items[0])) && Printable(WriteItems(items[1..]))
    decreases items, 0
  {
    if items != [] {
      WritePrintable(items[0]);
      ItemsPrintable(items[1..]);
    }
  }

  lemma {:induction false} MembersPrintable(members: seq<Member>)
    ensures Printable(WriteMembers(members))
    ensures members != [] ==> Printable(WriteMember(members[0])) && Printable(WriteMembers(members[1..]))
    decreases members, 0
  {
    if members != [] {
      EscapePrintable(members[0].key);
      WritePrintable(members[0].value);
      MembersPrintable(members[1..]);
    }
  }
}
