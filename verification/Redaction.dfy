/** Removing RPC URLs from messages: `redact_urls` in crates/gum-chain/src/lib.rs. */
module Redaction {
  import opened Prelude

  const PLACEHOLDER: string := "<rpc-url>"

  /** The Unicode White_Space property. */
  predicate IsWhitespace(c: char) {
    var n := c as int;
    9 <= n <= 13 || n == 0x20 || n == 0x85 || n == 0xA0 || n == 0x1680 || 0x2000 <= n <= 0x200A
    || n == 0x2028 || n == 0x2029 || n == 0x202F || n == 0x205F || n == 0x3000
  }

  predicate EndsUrl(c: char) {
    IsWhitespace(c) || c == ')' || c == '"'
  }

  predicate OccursAt(s: string, part: string, i: nat) {
    i + |part| <= |s| && s[i..i + |part|] == part
  }

  /** The first position of `part` in `s` from `i` on. */
  function Find(s: string, part: string, i: nat): (r: Option<nat>)
    requires i <= |s|
    ensures r.Some? ==> i <= r.value <= |s| && OccursAt(s, part, r.value)
    ensures forall j :: i <= j && (r.None? || j < r.value) ==> !OccursAt(s, part, j)
    decreases |s| - i
  {
    if OccursAt(s, part, i) then Some(i) else if i == |s| then None else Find(s, part, i + 1)
  }

  function Earlier(a: Option<nat>, b: Option<nat>): Option<nat> {
    if a.None? then b else if b.None? || a.value <= b.value then a else b
  }

  /** Where a URL starts. */
  predicate SchemeAt(s: string, i: nat) {
    OccursAt(s, "http://", i) || OccursAt(s, "https://", i) || OccursAt(s, "ws://", i) || OccursAt(s, "wss://", i)
  }

  /** No scheme string anywhere. */
  ghost predicate Clean(s: string) {
    forall i: nat :: !SchemeAt(s, i)
  }

  function UrlStart(s: string): (r: Option<nat>)
    ensures r.Some? ==> SchemeAt(s, r.value)
    ensures forall j: nat :: (r.None? || j < r.value) ==> !SchemeAt(s, j)
  {
    Earlier(Earlier(Find(s, "http://", 0), Find(s, "https://", 0)), Earlier(Find(s, "ws://", 0), Find(s, "wss://", 0)))
  }

  /** How far the URL at the front of `s` reaches. */
  function UrlLength(s: string): (n: nat)
    ensures n <= |s| && (forall i :: 0 <= i < n ==> !EndsUrl(s[i])) && (n < |s| ==> EndsUrl(s[n]))
  {
    if s == [] || EndsUrl(s[0]) then 0 else 1 + UrlLength(s[1..])
  }

  lemma SchemeStarts(s: string, i: nat)
    requires SchemeAt(s, i)
    ensures i < |s| && (s[i] == 'h' || s[i] == 'w') && !EndsUrl(s[i])
  {
    assert OccursAt(s, "http://", i) ==> s[i] == s[i..i + 7][0];
    assert OccursAt(s, "https://", i) ==> s[i] == s[i..i + 8][0];
    assert OccursAt(s, "ws://", i) ==> s[i] == s[i..i + 5][0];
    assert OccursAt(s, "wss://", i) ==> s[i] == s[i..i + 6][0];
  }

  function Redact(s: string): string
    decreases |s|
  {
    var start := UrlStart(s);
    if start.None? then s
    else
      SchemeStarts(s, start.value);
      var url := s[start.value..];
      s[..start.value] + PLACEHOLDER + Redact(url[UrlLength(url)..])
  }

  lemma {:induction false} RedactStep(redacted: string, s: string)
    requires UrlStart(s).Some?
    ensures var n := UrlStart(s).value;
            n < |s| && redacted + Redact(s) == redacted + s[..n] + PLACEHOLDER + Redact(s[n..][UrlLength(s[n..])..])
  {
    var n := UrlStart(s).value;
    SchemeStarts(s, n);
    var rest := Redact(s[n..][UrlLength(s[n..])..]);
    Regroup(redacted, s[..n], PLACEHOLDER, rest);
  }

  method RedactUrls(message: string) returns (redacted: string)
    ensures redacted == Redact(message)
  {
    redacted := "";
    var rest := message;
    assert redacted + Redact(rest) == Redact(message);
    var start := UrlStart(rest);
    while start.Some?
      invariant start == UrlStart(rest)
      invariant redacted + Redact(rest) == Redact(message)
      decreases |rest|
    {
      SchemeStarts(rest, start.value);
      RedactStep(redacted, rest);
      redacted := redacted + rest[..start.value];
      var url := rest[start.value..];
      var end := UrlLength(url);
      redacted := redacted + PLACEHOLDER;
      rest := url[end..];
      start := UrlStart(rest);
    }
    redacted := redacted + rest;
  }

  // ------------------------------------------------------------ nothing leaks

  /** An occurrence cannot reach across a character the searched text lacks. */
  lemma StopsBefore(s: string, part: string, i: nat, k: nat)
    requires OccursAt(s, part, i) && i <= k < |s| && s[k] !in part
    ensures OccursAt(s[..k], part, i)
  {
    assert forall j :: 0 <= j < |part| ==> s[i + j] == s[i..i + |part|][j] == part[j];
    assert s[..k][i..i + |part|] == s[i..i + |part|];
  }

  lemma SchemeBefore(s: string, i: nat, k: nat)
    requires SchemeAt(s, i) && i <= k < |s| && s[k] == '<'
    ensures SchemeAt(s[..k], i)
  {
    if OccursAt(s, "http://", i) {
      StopsBefore(s, "http://", i, k);
    } else if OccursAt(s, "https://", i) {
      StopsBefore(s, "https://", i, k);
    } else if OccursAt(s, "ws://", i) {
      StopsBefore(s, "ws://", i, k);
    } else {
      StopsBefore(s, "wss://", i, k);
    }
  }

  lemma OccursShifted(a: string, b: string, part: string, i: nat)
    requires OccursAt(a + b, part, i) && |a| <= i
    ensures OccursAt(b, part, i - |a|)
  {
    assert b[i - |a|..i - |a| + |part|] == (a + b)[i..i + |part|];
  }

  lemma SchemeShifted(a: string, b: string, i: nat)
    requires SchemeAt(a + b, i) && |a| <= i
    ensures SchemeAt(b, i - |a|)
  {
    if OccursAt(a + b, "http://", i) {
      OccursShifted(a, b, "http://", i);
    } else if OccursAt(a + b, "https://", i) {
      OccursShifted(a, b, "https://", i);
    } else if OccursAt(a + b, "ws://", i) {
      OccursShifted(a, b, "ws://", i);
    } else {
      OccursShifted(a, b, "wss://", i);
    }
  }

  /** No scheme arises across a splice. */
  lemma CleanSplice(a: string, b: string)
    requires Clean(a) && Clean(b)
    ensures Clean(a + PLACEHOLDER + b)
  {
    var front := a + PLACEHOLDER;
    var s := front + b;
    assert forall i :: |a| <= i < |front| ==> s[i] == PLACEHOLDER[i - |a|] && s[i] != 'h' && s[i] != 'w';
    forall i: nat
      ensures !SchemeAt(s, i)
    {
      if SchemeAt(s, i) {
        SchemeStarts(s, i);
        if i < |a| {
          assert s[|a|] == '<' && s[..|a|] == a;
          SchemeBefore(s, i, |a|);
        } else if i >= |front| {
          SchemeShifted(front, b, i);
        }
      }
    }
  }

  lemma SchemeExtends(s: string, i: nat, k: nat)
    requires k <= |s| && SchemeAt(s[..k], i)
    ensures SchemeAt(s, i)
  {
    assert forall part: string :: OccursAt(s[..k], part, i) ==> s[..k][i..i + |part|] == s[i..i + |part|];
  }

  lemma PrefixClean(s: string)
    requires UrlStart(s).Some?
    ensures UrlStart(s).value <= |s| && Clean(s[..UrlStart(s).value])
  {
    var start := UrlStart(s).value;
    SchemeStarts(s, start);
    forall i: nat
      ensures !SchemeAt(s[..start], i)
    {
      if SchemeAt(s[..start], i) {
        SchemeStarts(s[..start], i);
        SchemeExtends(s, i, start);
      }
    }
  }

  /** The output holds none of the four schemes, not even across a replaced URL. */
  lemma {:induction false} NothingLeaks(s: string)
    ensures Clean(Redact(s))
    decreases |s|
  {
    var start := UrlStart(s);
    if start.Some? {
      SchemeStarts(s, start.value);
      PrefixClean(s);
      var url := s[start.value..];
      NothingLeaks(url[UrlLength(url)..]);
      CleanSplice(s[..start.value], Redact(url[UrlLength(url)..]));
    }
  }

  /** A message is left as it is exactly when it names no URL. */
  lemma UnchangedExactlyWhenClean(s: string)
    ensures Redact(s) == s <==> Clean(s)
  {
    NothingLeaks(s);
  }

  /** A second pass changes nothing. */
  lemma Idempotent(s: string)
    ensures Redact(Redact(s)) == Redact(s)
  {
    NothingLeaks(s);
    UnchangedExactlyWhenClean(Redact(s));
  }

  // ------------------------------------------------------------ nothing else changes

  /** A message cut into texts and the URLs between them. */
  datatype Cut = Last(text: string) | More(text: string, url: string, rest: Cut)

  function Source(c: Cut): string {
    match c
    case Last(text) => text
    case More(text, url, rest) => text + url + Source(rest)
  }

  function Redacted(c: Cut): string {
    match c
    case Last(text) => text
    case More(text, url, rest) => text + "<rpc-url>" + Redacted(rest)
  }

  /**
   * Texts name no URL; each URL starts with a scheme, holds no white space, closing parenthesis or
   * quote, and ends at one of these or at the end.
   */
  ghost predicate Proper(c: Cut) {
    && Clean(c.text)
    && (c.More? ==>
          && SchemeAt(c.url, 0) && (forall i :: 0 <= i < |c.url| ==> !IsWhitespace(c.url[i]) && c.url[i] != ')' && c.url[i] != '"')
          && (var after := Source(c.rest); after != "" ==> IsWhitespace(after[0]) || after[0] == ')' || after[0] == '"')
          && Proper(c.rest))
  }

  function CutAtUrls(s: string): Cut
    decreases |s|
  {
    var start := UrlStart(s);
    if start.None? then Last(s)
    else
      SchemeStarts(s, start.value);
      var url := s[start.value..];
      More(s[..start.value], url[..UrlLength(url)], CutAtUrls(url[UrlLength(url)..]))
  }

  /** A scheme holds no terminator, so the URL keeps all of it. */
  lemma SchemeKept(s: string)
    requires SchemeAt(s, 0)
    ensures SchemeAt(s[..UrlLength(s)], 0)
  {
    if OccursAt(s, "http://", 0) {
      PartKept(s, "http://");
    } else if OccursAt(s, "https://", 0) {
      PartKept(s, "https://");
    } else if OccursAt(s, "ws://", 0) {
      PartKept(s, "ws://");
    } else {
      PartKept(s, "wss://");
    }
  }

  lemma PartKept(s: string, part: string)
    requires OccursAt(s, part, 0) && forall j :: 0 <= j < |part| ==> !EndsUrl(part[j])
    ensures OccursAt(s[..UrlLength(s)], part, 0)
  {
    var n := UrlLength(s);
    assert forall j :: 0 <= j < |part| ==> s[j] == s[0..|part|][j] == part[j];
    assert s[..n][0..|part|] == s[0..|part|];
  }

  lemma {:induction false} CutIsSource(s: string)
    ensures Source(CutAtUrls(s)) == s
    decreases |s|
  {
    var start := UrlStart(s);
    if start.Some? {
      SchemeStarts(s, start.value);
      var text, tail := s[..start.value], s[start.value..];
      var n := UrlLength(tail);
      CutIsSource(tail[n..]);
      CutInThree(s, start.value, n);
    }
  }

  lemma {:induction false} CutIsRedacted(s: string)
    ensures Redacted(CutAtUrls(s)) == Redact(s)
    decreases |s|
  {
    var start := UrlStart(s);
    if start.Some? {
      SchemeStarts(s, start.value);
      var url := s[start.value..];
      CutIsRedacted(url[UrlLength(url)..]);
    }
  }

  lemma {:induction false} CutIsProper(s: string)
    ensures Proper(CutAtUrls(s))
    decreases |s|
  {
    var start := UrlStart(s);
    if start.Some? {
      SchemeStarts(s, start.value);
      PrefixClean(s);
      var text, tail := s[..start.value], s[start.value..];
      assert text + tail == s;
      SchemeShifted(text, tail, start.value);
      SchemeKept(tail);
      var rest := tail[UrlLength(tail)..];
      CutIsSource(rest);
      CutIsProper(rest);
    }
  }

  /** An occurrence that starts before a character cannot contain it if only its first character is that one. */
  lemma EndsBefore(s: string, part: string, i: nat, k: nat)
    requires OccursAt(s, part, i) && i < k < |s| && forall j :: 0 < j < |part| ==> part[j] != s[k]
    ensures OccursAt(s[..k], part, i)
  {
    var d := k - i;
    assert d < |part| ==> part[d] != s[k];
    assert forall j :: 0 <= j < |part| ==> s[i + j] == s[i..i + |part|][j] == part[j];
    assert s[..k][i..i + |part|] == s[i..i + |part|];
  }

  /** No scheme runs into the one a URL starts with. */
  lemma SchemesApart(s: string, i: nat, k: nat)
    requires SchemeAt(s, i) && i < k < |s| && (s[k] == 'h' || s[k] == 'w')
    ensures SchemeAt(s[..k], i)
  {
    if OccursAt(s, "http://", i) {
      EndsBefore(s, "http://", i, k);
    } else if OccursAt(s, "https://", i) {
      EndsBefore(s, "https://", i, k);
    } else if OccursAt(s, "ws://", i) {
      EndsBefore(s, "ws://", i, k);
    } else {
      EndsBefore(s, "wss://", i, k);
    }
  }

  lemma OccursThere(a: string, b: string, c: string, part: string)
    requires OccursAt(b, part, 0)
    ensures OccursAt(a + b + c, part, |a|)
  {
    assert (a + b + c)[|a|..|a| + |part|] == b[0..|part|];
  }

  lemma SchemeThere(a: string, b: string, c: string)
    requires SchemeAt(b, 0)
    ensures SchemeAt(a + b + c, |a|)
  {
    if OccursAt(b, "http://", 0) {
      OccursThere(a, b, c, "http://");
    } else if OccursAt(b, "https://", 0) {
      OccursThere(a, b, c, "https://");
    } else if OccursAt(b, "ws://", 0) {
      OccursThere(a, b, c, "ws://");
    } else {
      OccursThere(a, b, c, "wss://");
    }
  }

  /** The first scheme is where the first URL of a proper cut begins. */
  lemma CutStartsThere(text: string, url: string, after: string)
    requires Clean(text) && SchemeAt(url, 0)
    ensures UrlStart(text + url + after) == Some(|text|)
  {
    var s := text + url + after;
    SchemeThere(text, url, after);
    SchemeStarts(s, |text|);
    assert s[..|text|] == text;
    forall i: nat | i < |text|
      ensures SchemeAt(s, i) ==> SchemeAt(text, i)
    {
      if SchemeAt(s, i) {
        SchemesApart(s, i, |text|);
      }
    }
  }

  lemma {:induction false} UrlEndsThere(url: string, after: string)
    requires forall i :: 0 <= i < |url| ==> !EndsUrl(url[i])
    requires after != "" ==> EndsUrl(after[0])
    ensures UrlLength(url + after) == |url|
  {
    if url == "" {
      assert url + after == after;
    } else {
      assert (url + after)[1..] == url[1..] + after;
      UrlEndsThere(url[1..], after);
    }
  }

  lemma RedactFirst(s: string, n: nat)
    requires UrlStart(s) == Some(n) && n < |s|
    ensures Redact(s) == s[..n] + PLACEHOLDER + Redact(s[n..][UrlLength(s[n..])..])
  {
  }

  lemma FirstUrlRedacted(text: string, url: string, after: string)
    requires Clean(text) && SchemeAt(url, 0)
    requires forall i :: 0 <= i < |url| ==> !EndsUrl(url[i])
    requires after != "" ==> EndsUrl(after[0])
    ensures Redact(text + url + after) == text + PLACEHOLDER + Redact(after)
  {
    SchemeStarts(url, 0);
    CutStartsThere(text, url, after);
    UrlEndsThere(url, after);
    PartsOfThree(text, url, after);
    RedactFirst(text + url + after, |text|);
  }

  /**
   * Redaction replaces the URLs, whole, and keeps every text between them in order: however a
   * message is cut into texts that name no URL and URLs up to their terminators, the output is
   * the texts with a placeholder for each URL.
   */
  lemma {:induction false} EveryCutIsRedacted(c: Cut)
    requires Proper(c)
    ensures Redact(Source(c)) == Redacted(c)
  {
    if c.More? {
      FirstUrlRedacted(c.text, c.url, Source(c.rest));
      EveryCutIsRedacted(c.rest);
    }
  }

  /** And every message is cut so. */
  lemma OnlyUrlsReplaced(s: string)
    ensures Source(CutAtUrls(s)) == s && Redacted(CutAtUrls(s)) == Redact(s) && Proper(CutAtUrls(s))
  {
    CutIsSource(s);
    CutIsRedacted(s);
    CutIsProper(s);
  }
}
