/** Reading a journal never skips a record: `readRecords` in benchmarks/gum-load/src/journal.ts, line by line. */
module JournalLines {
  import opened Prelude
  import opened Json
  import opened Journal
  import Amounts

  /** The lines joined again with line breaks. */
  function Joined(lines: seq<string>): string
    requires |lines| > 0
  {
    if |lines| == 1 then lines[0] else lines[0] + "\n" + Joined(lines[1..])
  }

  /** Splitting loses nothing and leaves no break in a line. */
  lemma {:induction false} LinesJoin(raw: string)
    ensures Joined(Lines(raw)) == raw && forall i :: 0 <= i < |Lines(raw)| ==> '\n' !in Lines(raw)[i]
  {
    if raw != "" {
      var lines, rest := Lines(raw), Lines(raw[1..]);
      LinesJoin(raw[1..]);
      assert raw == [raw[0]] + raw[1..];
      if raw[0] == '\n' {
        assert lines[1..] == rest;
        assert Joined(lines) == "" + "\n" + Joined(rest);
      } else {
        assert lines[1..] == rest[1..];
        FirstLonger(raw[0], rest);
      }
    }
  }

  lemma FirstLonger(c: char, rest: seq<string>)
    requires |rest| > 0
    ensures Joined([[c] + rest[0]] + rest[1..]) == [c] + Joined(rest)
  {
    var lines := [[c] + rest[0]] + rest[1..];
    assert lines[1..] == rest[1..];
    if |rest| > 1 {
      Regroup([c], rest[0], "\n", Joined(rest[1..]));
    }
  }

  /** The lines that hold something, trimmed. */
  function Entries(lines: seq<string>): seq<string> {
    if lines == [] then []
    else (if Amounts.Trim(lines[0]) == "" then [] else [Amounts.Trim(lines[0])]) + Entries(lines[1..])
  }

  /** The first `n` entries parse, to these records. */
  ghost predicate Parse(parse: Parser, entries: seq<string>, records: seq<Json>) {
    |records| <= |entries| && forall i :: 0 <= i < |records| ==> parse(entries[i]) == Some(records[i])
  }

  /** What a reading says about the entries: all of them, all but a broken last one, or where the first broken one is. */
  ghost predicate Faithful(parse: Parser, entries: seq<string>, lenient: bool, r: Result<seq<Json>, nat>) {
    match r
    case Ok(records) =>
      && Parse(parse, entries, records)
      && (|records| == |entries| || (lenient && |records| + 1 == |entries| && parse(entries[|records|]).None?))
    case Err(n) =>
      && 1 <= n <= |entries| && parse(entries[n - 1]).None?
      && forall i :: 0 <= i < n - 1 ==> parse(entries[i]).Some?
  }

  lemma EntriesFrom(lines: seq<string>, i: nat)
    requires i < |lines|
    ensures Entries(lines[i..]) == (if Amounts.Trim(lines[i]) == "" then [] else [Amounts.Trim(lines[i])]) + Entries(lines[i + 1..])
  {
    assert lines[i..][0] == lines[i] && lines[i..][1..] == lines[i + 1..];
  }

  /** The last line that counts as last is the last entry. */
  lemma LastEntry(lines: seq<string>, i: nat)
    requires i < |lines| && IsLast(lines, i)
    ensures Entries(lines[i + 1..]) == []
  {
    if i + 1 == |lines| {
      assert lines[i + 1..] == [];
    } else {
      EntriesFrom(lines, i + 1);
      assert lines[i + 2..] == [];
    }
  }

  lemma {:induction false} ReadFromFaithful(parse: Parser, lines: seq<string>, i: nat, before: seq<string>, records: seq<Json>, lenient: bool)
    requires i <= |lines| && |before| == |records| && Parse(parse, before, records)
    ensures Faithful(parse, before + Entries(lines[i..]), lenient, ReadFrom(parse, lines, i, records, lenient))
    decreases |lines| - i
  {
    if i == |lines| {
      assert before + Entries(lines[i..]) == before;
    } else {
      var line := Amounts.Trim(lines[i]);
      EntriesFrom(lines, i);
      if line == "" {
        assert Entries(lines[i..]) == Entries(lines[i + 1..]);
        ReadFromFaithful(parse, lines, i + 1, before, records, lenient);
      } else {
        Assoc(before, [line], Entries(lines[i + 1..]));
        if parse(line).Some? {
          ParseMore(parse, before, records, line);
          ReadFromFaithful(parse, lines, i + 1, before + [line], records + [parse(line).value], lenient);
        } else if IsLast(lines, i) {
          LastEntry(lines, i);
          BrokenEntry(parse, before, records, line, []);
        } else {
          BrokenEntry(parse, before, records, line, Entries(lines[i + 1..]));
        }
      }
    }
  }

  lemma ParseMore(parse: Parser, before: seq<string>, records: seq<Json>, line: string)
    requires |before| == |records| && Parse(parse, before, records) && parse(line).Some?
    ensures Parse(parse, before + [line], records + [parse(line).value])
  {
  }

  lemma BrokenEntry(parse: Parser, before: seq<string>, records: seq<Json>, line: string, after: seq<string>)
    requires |before| == |records| && Parse(parse, before, records) && parse(line).None?
    ensures Faithful(parse, before + ([line] + after), false, Err(|records| + 1))
    ensures Faithful(parse, before + ([line] + after), true, Err(|records| + 1))
    ensures after == [] ==> Faithful(parse, before + ([line] + after), true, Ok(records))
  {
    var all := before + ([line] + after);
    assert all[|before|] == line;
    assert forall i :: 0 <= i < |before| ==> all[i] == before[i];
  }

  /**
   * Whatever the file holds, the records read are its entries in order, all of them, or all but a
   * last one that is no JSON when the tail may be torn; otherwise the error numbers the first
   * entry that is no JSON. Nothing in the middle is skipped.
   */
  lemma NothingSkipped(parse: Parser, raw: string, lenient: bool)
    ensures Faithful(parse, Entries(Lines(raw)), lenient, Read(parse, raw, lenient))
  {
    ReadFromFaithful(parse, Lines(raw), 0, [], [], lenient);
    assert Lines(raw)[0..] == Lines(raw);
    assert [] + Entries(Lines(raw)) == Entries(Lines(raw));
  }
}
