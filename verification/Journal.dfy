/** Reading a journal back, however it was cut: `readRecords` in benchmarks/gum-load/src/journal.ts. */
module Journal {
  import opened Prelude
  import opened Json
  import opened JsonScan
  import opened Utf8
  import Amounts

  /** The language's JSON reader. */
  type Parser = string -> Option<Json>

  /** It accepts only text whose quotes and brackets match up. */
  ghost predicate RejectsTorn(parse: Parser) {
    forall s :: parse(s).Some? ==> Closed(s)
  }

  /** It reads back these values from their text. */
  ghost predicate ReadsBack(parse: Parser, values: seq<Json>) {
    forall i :: 0 <= i < |values| ==> values[i].Obj? && parse(Write(values[i])) == Some(values[i])
  }

  // ------------------------------------------------------------ reading a journal

  /** A text split at its line breaks. */
  function Lines(raw: string): (lines: seq<string>)
    ensures |lines| > 0
  {
    if raw == "" then [""]
    else
      var rest := Lines(raw[1..]);
      if raw[0] == '\n' then [""] + rest else [[raw[0]] + rest[0]] + rest[1..]
  }

  predicate IsLast(lines: seq<string>, i: nat) {
    i + 1 == |lines| || (i + 2 == |lines| && lines[|lines| - 1] == "")
  }

  /** The records from line `i` on, after those already read; an error names the bad record. */
  function ReadFrom(parse: Parser, lines: seq<string>, i: nat, records: seq<Json>, lenient: bool): Result<seq<Json>, nat>
    decreases |lines| - i
  {
    if i >= |lines| then Ok(records)
    else
      var line := Amounts.Trim(lines[i]);
      if line == "" then ReadFrom(parse, lines, i + 1, records, lenient)
      else if parse(line).Some? then ReadFrom(parse, lines, i + 1, records + [parse(line).value], lenient)
      else if IsLast(lines, i) && lenient then Ok(records)
      else Err(|records| + 1)
  }

  function Read(parse: Parser, raw: string, lenient: bool): Result<seq<Json>, nat> {
    ReadFrom(parse, Lines(raw), 0, [], lenient)
  }

  /** What is read from the bytes of a file. */
  function ReadBytes(parse: Parser, file: seq<Octet>, lenient: bool): Result<seq<Json>, nat> {
    Read(parse, Decode(file), lenient)
  }

  method ReadRecords(parse: Parser, file: seq<Octet>, lenientTail: bool) returns (r: Result<seq<Json>, nat>)
    ensures r == ReadBytes(parse, file, lenientTail)
  {
    var raw := Decode(file);
    var records := [];
    var lines := Lines(raw);
    var i := 0;
    while i < |lines|
      invariant i <= |lines|
      invariant ReadFrom(parse, lines, i, records, lenientTail) == Read(parse, raw, lenientTail)
    {
      var line := Amounts.Trim(lines[i]);
      if line != "" {
        var record := parse(line);
        if record.Some? {
          records := records + [record.value];
        } else {
          var isLast := i == |lines| - 1 || (i == |lines| - 2 && lines[|lines| - 1] == "");
          if isLast && lenientTail {
            return Ok(records);
          }
          return Err(|records| + 1);
        }
      }
      i := i + 1;
    }
    return Ok(records);
  }

  // ------------------------------------------------------------ the file

  function FileOf(records: seq<Json>): string {
    if records == [] then "" else Write(records[0]) + "\n" + FileOf(records[1..])
  }

  lemma {:induction false} FileOfAppend(records: seq<Json>, record: Json)
    ensures FileOf(records + [record]) == FileOf(records) + (Write(record) + "\n")
  {
    if records == [] {
      assert [record][1..] == [] && records + [record] == [record];
    } else {
      assert (records + [record])[1..] == records[1..] + [record];
      FileOfAppend(records[1..], record);
    }
  }

  lemma {:induction false} LinesOfOne(line: string)
    requires '\n' !in line
    ensures Lines(line) == [line]
  {
    if line != "" {
      LinesOfOne(line[1..]);
      assert line == [line[0]] + line[1..];
    }
  }

  lemma {:induction false} LinesCut(line: string, rest: string)
    requires '\n' !in line
    ensures Lines(line + "\n" + rest) == [line] + Lines(rest)
  {
    var raw := line + "\n" + rest;
    if line == "" {
      assert raw[0] == '\n' && raw[1..] == rest;
    } else {
      LinesCut(line[1..], rest);
      assert raw[1..] == line[1..] + "\n" + rest;
      assert line == [line[0]] + line[1..];
    }
  }

  function Texts(records: seq<Json>): seq<string> {
    if records == [] then [] else [Write(records[0])] + Texts(records[1..])
  }

  lemma {:induction false} TextAt(records: seq<Json>, i: nat)
    requires i < |records|
    ensures |Texts(records)| == |records| && Texts(records)[i] == Write(records[i])
  {
    if |records| > 1 {
      TextAt(records[1..], if i > 0 then i - 1 else 0);
    }
  }

  lemma {:induction false} OneLine(j: Json)
    ensures '\n' !in Write(j)
  {
    WritePrintable(j);
  }

  /** A journal's lines are its records' texts, then whatever follows the last line break. */
  lemma {:induction false} LinesOfFile(records: seq<Json>, tail: string)
    requires '\n' !in tail
    ensures Lines(FileOf(records) + tail) == Texts(records) + [tail]
  {
    if records == [] {
      assert FileOf(records) + tail == tail;
      LinesOfOne(tail);
    } else {
      var first, rest := Write(records[0]), FileOf(records[1..]);
      OneLine(records[0]);
      assert FileOf(records) + tail == first + "\n" + (rest + tail);
      LinesCut(first, rest + tail);
      LinesOfFile(records[1..], tail);
    }
  }

  // ------------------------------------------------------------ trimming

  lemma {:induction false} MembersEnd(members: seq<Member>)
    ensures |WriteMembers(members)| > 0 && WriteMembers(members)[|WriteMembers(members)| - 1] == '}'
  {
    if members != [] {
      MembersEnd(members[1..]);
    }
  }

  lemma {:induction false} ObjectEnds(members: seq<Member>)
    ensures var t := Write(Obj(members)); |t| > 0 && t[0] == '{' && t[|t| - 1] == '}'
  {
    if members != [] {
      MembersEnd(members[1..]);
    }
  }

  lemma TrimObject(j: Json)
    requires j.Obj?
    ensures Amounts.Trim(Write(j)) == Write(j) != ""
  {
    ObjectEnds(j.members);
  }

  lemma {:induction false} TrimEndIsPrefix(s: string)
    requires s != "" && !Amounts.IsBlank(s[0])
    ensures var t := Amounts.TrimEnd(s); 0 < |t| <= |s| && t == s[..|t|]
  {
    if Amounts.IsBlank(s[|s| - 1]) {
      TrimEndIsPrefix(s[..|s| - 1]);
    }
  }

  /** A torn record, trimmed, is a torn record, and no JSON reader accepts it. */
  lemma {:induction false} TornRefused(parse: Parser, j: Json, k: nat)
    requires RejectsTorn(parse) && j.Obj? && 0 < k < |Write(j)|
    ensures Amounts.Trim(Write(j)[..k]) != "" && parse(Amounts.Trim(Write(j)[..k])).None?
  {
    var torn := Write(j)[..k];
    ObjectEnds(j.members);
    assert torn[0] == '{';
    TrimEndIsPrefix(torn);
    var t := Amounts.Trim(torn);
    assert t == Write(j)[..|t|];
    TornObject(j.members, |t|);
  }

  // ------------------------------------------------------------ recovery

  lemma {:induction false} ReadTexts(parse: Parser, records: seq<Json>, tail: string, i: nat, lenient: bool)
    requires ReadsBack(parse, records) && i <= |records|
    ensures var lines := Texts(records) + [tail];
            ReadFrom(parse, lines, 0, [], lenient) == ReadFrom(parse, lines, i, records[..i], lenient)
  {
    if i > 0 {
      ReadTexts(parse, records, tail, i - 1, lenient);
      TextAt(records, i - 1);
      ReadNext(parse, Texts(records) + [tail], records, i - 1, lenient);
    } else {
      assert records[..0] == [];
    }
  }

  lemma {:induction false} ReadNext(parse: Parser, lines: seq<string>, records: seq<Json>, i: nat, lenient: bool)
    requires ReadsBack(parse, records) && i < |records| && i < |lines| && lines[i] == Write(records[i])
    ensures ReadFrom(parse, lines, i, records[..i], lenient) == ReadFrom(parse, lines, i + 1, records[..i + 1], lenient)
  {
    TrimObject(records[i]);
    TakeNext(records, i);
  }

  /** What is made of the last line. */
  function ReadLast(parse: Parser, records: seq<Json>, tail: string, lenient: bool): Result<seq<Json>, nat> {
    var line := Amounts.Trim(tail);
    if line == "" then Ok(records)
    else if parse(line).Some? then Ok(records + [parse(line).value])
    else if lenient then Ok(records)
    else Err(|records| + 1)
  }

  /** Reading whole records and one more line without its break. */
  lemma {:induction false} ReadTail(parse: Parser, records: seq<Json>, tail: string, lenient: bool)
    requires ReadsBack(parse, records) && '\n' !in tail
    ensures Read(parse, FileOf(records) + tail, lenient) == ReadLast(parse, records, tail, lenient)
  {
    var lines := Texts(records) + [tail];
    LinesOfFile(records, tail);
    ReadTexts(parse, records, tail, |records|, lenient);
    assert records[..|records|] == records;
    assert |Texts(records)| == |records| by {
      if records != [] {
        TextAt(records, 0);
      }
    }
    assert lines[|records|] == tail && |lines| == |records| + 1;
  }

  /** Cutting a journal anywhere leaves whole records and a beginning of the next. */
  ghost predicate IsCut(records: seq<Json>, n: nat, k: nat, part: nat) {
    && n <= |FileOf(records)| && k <= |records| && (k < |records| ==> part <= |Write(records[k])|) && (k == |records| ==> part == 0)
    && FileOf(records)[..n] == FileOf(records[..k]) + if k < |records| then Write(records[k])[..part] else ""
  }

  lemma {:induction false} CutFile(records: seq<Json>, n: nat) returns (k: nat, part: nat)
    requires n <= |FileOf(records)|
    ensures IsCut(records, n, k, part)
  {
    k, part := 0, 0;
    if records != [] {
      var first := Write(records[0]) + "\n";
      if n < |first| {
        part := n;
        assert FileOf(records)[..n] == Write(records[0])[..n];
        assert records[..0] == [];
      } else {
        k, part := CutFile(records[1..], n - |first|);
        CutLater(records, n, k, part);
        k := k + 1;
      }
    }
  }

  lemma {:induction false} CutLater(records: seq<Json>, n: nat, k: nat, part: nat)
    requires records != [] && |Write(records[0])| + 1 <= n <= |FileOf(records)|
    requires IsCut(records[1..], n - |Write(records[0])| - 1, k, part)
    ensures IsCut(records, n, k + 1, part)
  {
    var first, rest := Write(records[0]) + "\n", records[1..];
    var tail := if k < |rest| then Write(rest[k])[..part] else "";
    TakeBoth(first, FileOf(rest), n);
    assert records[..k + 1][1..] == rest[..k] && records[..k + 1][0] == records[0];
    Assoc(first, FileOf(rest[..k]), tail);
  }

  lemma {:induction false} LongerFile(records: seq<Json>, a: nat, b: nat)
    requires a < b <= |records|
    ensures |FileOf(records[..a])| + |Write(records[a])| < |FileOf(records[..b])|
    decreases b
  {
    assert records[..b] == records[..b - 1] + [records[b - 1]];
    FileOfAppend(records[..b - 1], records[b - 1]);
    if a < b - 1 {
      LongerFile(records, a, b - 1);
    }
  }

  /** What lies wholly before the cut is among its whole records. */
  lemma {:induction false} CutIsMaximal(records: seq<Json>, n: nat, k: nat, part: nat, d: nat)
    requires IsCut(records, n, k, part) && d <= |records| && |FileOf(records[..d])| <= n
    ensures d <= k
  {
    assert n == |FileOf(records)[..n]| == |FileOf(records[..k])| + part;
    if k < d {
      LongerFile(records, k, d);
    }
  }

  /** Lenient reading finds these records; strict reading finds the same or names the next. */
  ghost predicate Recovers(parse: Parser, raw: string, found: seq<Json>) {
    && Read(parse, raw, true) == Ok(found)
    && (Read(parse, raw, false) == Ok(found) || Read(parse, raw, false) == Err(|found| + 1))
  }

  /** The same of the bytes of a file. */
  ghost predicate RecoversBytes(parse: Parser, file: seq<Octet>, found: seq<Json>) {
    && ReadBytes(parse, file, true) == Ok(found)
    && (ReadBytes(parse, file, false) == Ok(found) || ReadBytes(parse, file, false) == Err(|found| + 1))
  }

  /** A last line that is empty or no JSON leaves the records before it. */
  lemma {:induction false} LastDropped(parse: Parser, before: seq<Json>, tail: string)
    requires ReadsBack(parse, before) && '\n' !in tail && (Amounts.Trim(tail) == "" || parse(Amounts.Trim(tail)).None?)
    ensures Recovers(parse, FileOf(before) + tail, before)
  {
    ReadTail(parse, before, tail, true);
    ReadTail(parse, before, tail, false);
  }

  /** One that is a whole record adds it. */
  lemma {:induction false} LastKept(parse: Parser, before: seq<Json>, next: Json)
    requires ReadsBack(parse, before) && next.Obj? && parse(Write(next)) == Some(next)
    ensures Recovers(parse, FileOf(before) + Write(next), before + [next])
  {
    OneLine(next);
    TrimObject(next);
    ReadTail(parse, before, Write(next), true);
    ReadTail(parse, before, Write(next), false);
  }

  /** What is read of a journal cut inside, or right after, the record that follows `before`. */
  lemma {:induction false} ReadPart(parse: Parser, before: seq<Json>, next: Json, part: nat)
    requires RejectsTorn(parse) && ReadsBack(parse, before) && next.Obj? && parse(Write(next)) == Some(next) && part <= |Write(next)|
    ensures Recovers(parse, FileOf(before) + Write(next)[..part], if part == |Write(next)| then before + [next] else before)
  {
    OneLine(next);
    if part == |Write(next)| {
      assert Write(next)[..part] == Write(next);
      LastKept(parse, before, next);
    } else {
      if part == 0 {
        assert Amounts.Trim(Write(next)[..0]) == "";
      } else {
        TornRefused(parse, next, part);
      }
      LastDropped(parse, before, Write(next)[..part]);
    }
  }

  /** What is read when the cut tears a character inside that record. */
  lemma {:induction false} ReadReplaced(parse: Parser, before: seq<Json>, next: Json, part: nat)
    requires RejectsTorn(parse) && ReadsBack(parse, before) && next.Obj? && 0 < part < |Write(next)|
    ensures Recovers(parse, FileOf(before) + (Write(next)[..part] + [REPLACEMENT]), before)
  {
    var tail := Write(next)[..part] + [REPLACEMENT];
    OneLine(next);
    ObjectEnds(next.members);
    assert tail[0] == '{' && tail[|tail| - 1] == REPLACEMENT;
    assert Amounts.Trim(tail) == tail;
    TornObjectReplaced(next.members, part, REPLACEMENT);
    LastDropped(parse, before, tail);
  }

  lemma {:induction false} PartReadsBack(parse: Parser, records: seq<Json>, n: nat)
    requires ReadsBack(parse, records) && n <= |records|
    ensures ReadsBack(parse, records[..n])
  {
  }

  lemma {:induction false} ReadAfterCut(parse: Parser, records: seq<Json>, n: nat, whole: nat, part: nat) returns (k: nat)
    requires RejectsTorn(parse) && ReadsBack(parse, records) && IsCut(records, n, whole, part)
    ensures whole <= k <= |records| && Recovers(parse, FileOf(records)[..n], records[..k])
  {
    var before := records[..whole];
    PartReadsBack(parse, records, whole);
    k := whole;
    if whole < |records| {
      ReadPart(parse, before, records[whole], part);
      if part == |Write(records[whole])| {
        assert before + [records[whole]] == records[..whole + 1];
        k := whole + 1;
      }
    } else {
      ReadWhole(parse, before, true);
      ReadWhole(parse, before, false);
      assert FileOf(records)[..n] == FileOf(before);
    }
  }

  // ------------------------------------------------------------ cut at any byte

  /** Where in the file a record's characters stand. */
  lemma {:induction false} FileAt(records: seq<Json>, whole: nat, part: nat)
    requires whole < |records| && part <= |Write(records[whole])|
    ensures var at := |FileOf(records[..whole])| + part;
            at < |FileOf(records)| && FileOf(records)[at] == (Write(records[whole]) + "\n")[part]
  {
    if whole == 0 {
      assert records[..0] == [];
    } else {
      FileAt(records[1..], whole - 1, part);
      assert records[..whole][1..] == records[1..][..whole - 1] && records[..whole][0] == records[0];
    }
  }

  lemma {:induction false} FilePrefix(records: seq<Json>, d: nat)
    requires d <= |records|
    ensures |FileOf(records[..d])| <= |FileOf(records)| && FileOf(records)[..|FileOf(records[..d])|] == FileOf(records[..d])
  {
    if d == 0 {
      assert records[..0] == [];
    } else {
      FilePrefix(records[1..], d - 1);
      assert records[..d][1..] == records[1..][..d - 1] && records[..d][0] == records[0];
      assert FileOf(records) == Write(records[0]) + "\n" + FileOf(records[1..]);
    }
  }

  /** A character the cut can tear lies inside a record: brackets and breaks are single bytes. */
  lemma {:induction false} TornInside(records: seq<Json>, n: nat, whole: nat, part: nat)
    requires (forall i :: 0 <= i < |records| ==> records[i].Obj?) && IsCut(records, n, whole, part)
    requires n < |FileOf(records)| && |Encode(FileOf(records)[n])| > 1
    ensures whole < |records| && 0 < part < |Write(records[whole])|
  {
    assert n == |FileOf(records)[..n]| == |FileOf(records[..whole])| + part;
    assert records[..|records|] == records;
    if whole < |records| {
      FileAt(records, whole, part);
      ObjectEnds(records[whole].members);
    }
  }

  /** Records whose bytes lie wholly before the cut are before it as text. */
  lemma {:induction false} BytesBefore(records: seq<Json>, n: nat, k: nat, torn: bool, d: nat)
    requires CutAt(FileOf(records), n, k, torn) && d <= |records| && |EncodeAll(FileOf(records[..d]))| <= n
    ensures |FileOf(records[..d])| <= k
  {
    var text, size := FileOf(records), |FileOf(records[..d])|;
    FilePrefix(records, d);
    if k < size {
      PrefixBytes(text, k, size);
    }
  }

  lemma {:induction false} ReadAfterByteCut(parse: Parser, records: seq<Json>, n: nat, k: nat, torn: bool, whole: nat, part: nat) returns (found: nat)
    requires RejectsTorn(parse) && ReadsBack(parse, records)
    requires Utf8.IsCut(FileOf(records), n, k, torn) && IsCut(records, k, whole, part)
    ensures whole <= found <= |records| && RecoversBytes(parse, EncodeAll(FileOf(records))[..n], records[..found])
  {
    var text := FileOf(records);
    if torn {
      TornInside(records, k, whole, part);
      PartReadsBack(parse, records, whole);
      ReadReplaced(parse, records[..whole], records[whole], part);
      Assoc(FileOf(records[..whole]), Write(records[whole])[..part], [REPLACEMENT]);
      found := whole;
    } else {
      assert text[..k] + "" == text[..k];
      found := ReadAfterCut(parse, records, k, whole, part);
    }
  }

  /**
   * Lenient recovery of a journal cut at any byte, a torn character included, returns the records
   * before the cut in order, and at least all that lie wholly before it; strict recovery returns
   * the same records or names the torn one.
   */
  lemma {:induction false} RecoveryIsPrefix(parse: Parser, records: seq<Json>, n: nat) returns (found: nat)
    requires RejectsTorn(parse) && ReadsBack(parse, records) && n <= |EncodeAll(FileOf(records))|
    ensures found <= |records| && RecoversBytes(parse, EncodeAll(FileOf(records))[..n], records[..found])
    ensures forall d :: 0 <= d <= |records| && |EncodeAll(FileOf(records[..d]))| <= n ==> d <= found
  {
    var k, torn := CutText(FileOf(records), n);
    var whole, part := CutFile(records, k);
    forall d | 0 <= d <= |records| && |EncodeAll(FileOf(records[..d]))| <= n
      ensures d <= whole
    {
      BytesBefore(records, n, k, torn, d);
      CutIsMaximal(records, k, whole, part, d);
    }
    found := ReadAfterByteCut(parse, records, n, k, torn, whole, part);
  }

  /** An uncut journal reads back whole, even strictly. */
  lemma {:induction false} ReadWhole(parse: Parser, records: seq<Json>, lenient: bool)
    requires ReadsBack(parse, records)
    ensures Read(parse, FileOf(records), lenient) == Ok(records)
  {
    LinesOfFile(records, "");
    assert FileOf(records) + "" == FileOf(records);
    ReadTexts(parse, records, "", |records|, lenient);
    assert records[..|records|] == records;
    if records != [] {
      TextAt(records, 0);
    }
  }

  // ------------------------------------------------------------ the reader's laws are consistent

  ghost function Unwrite(s: string): Option<Json> {
    if exists j :: Write(j) == s then
      var j :| Write(j) == s;
      Some(j)
    else None
  }

  /** There is a reader that reads back every value and accepts nothing torn. */
  lemma SomeReader() returns (parse: Parser)
    ensures RejectsTorn(parse) && forall j :: parse(Write(j)) == Some(j)
  {
    parse := s => Unwrite(s);
    forall j
      ensures parse(Write(j)) == Some(j)
    {
      var k :| Unwrite(Write(j)) == Some(k) && Write(k) == Write(j);
      WriteInjective(k, j);
    }
    forall s | parse(s).Some?
      ensures Closed(s)
    {
      WriteCloses(parse(s).value);
    }
  }
}
