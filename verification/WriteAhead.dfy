/**
 * The write-ahead journal of the load harness: `Journal` in benchmarks/gum-load/src/journal.ts, and
 * `Lifecycle.pay` in benchmarks/gum-load/src/lifecycle.ts, which journals a signed transaction
 * before it broadcasts it.
 */
module WriteAhead {
  import opened Prelude
  import opened Json
  import opened Utf8
  import opened Journal

  // ------------------------------------------------------------ writing

  const SIGNED := "op.payment.signed"

  const WRITE_AHEAD: set<string> :=
    {"op.intended", "op.payment.intent", "op.payment.signed", "webhook.received", "funding.record", "run.started"}

  /** What an appended record carries beside its number. */
  datatype Entry = Entry(epoch: nat, mono: nat, wall: string, kind: string, payload: Json)

  function RecordOf(number: nat, e: Entry): Json {
    Obj([Member("seq", Num(number)), Member("epoch", Num(e.epoch)), Member("mono", Num(e.mono)), Member("wall", Str(e.wall)),
         Member("type", Str(e.kind)), Member("payload", e.payload)])
  }

  /** A record says its number, who wrote it and when, the kind of event and its payload, each under its name. */
  ghost predicate Carries(record: Json, number: nat, e: Entry) {
    && record.Obj? && |record.members| == 6
    && Member("seq", Num(number)) in record.members && Member("epoch", Num(e.epoch)) in record.members
    && Member("mono", Num(e.mono)) in record.members && Member("wall", Str(e.wall)) in record.members
    && Member("type", Str(e.kind)) in record.members && Member("payload", e.payload) in record.members
  }

  lemma RecordCarries(number: nat, e: Entry)
    ensures Carries(RecordOf(number, e), number, e)
  {
    var ms := RecordOf(number, e).members;
    assert ms[0] in ms && ms[1] in ms && ms[2] in ms && ms[3] in ms && ms[4] in ms && ms[5] in ms;
  }

  /** The journal as written: its bytes and how many of them the last fsync made durable. */
  datatype Log = Log(entries: seq<Entry>, file: seq<Octet>, synced: nat, dirty: bool)

  const EMPTY := Log([], [], 0, false)

  function Append(log: Log, e: Entry): Log {
    var file := log.file + EncodeAll(Write(RecordOf(|log.entries| + 1, e)) + "\n");
    if e.kind in WRITE_AHEAD then log.(entries := log.entries + [e], file := file, synced := |file|)
    else log.(entries := log.entries + [e], file := file, dirty := true)
  }

  function Flush(log: Log): Log {
    if log.dirty then log.(synced := |log.file|, dirty := false) else log
  }

  class JournalFile {
    const epoch: nat
    var number: nat
    var file: seq<Octet>
    var synced: nat
    var dirty: bool
    ghost var entries: seq<Entry>

    ghost predicate Valid()
      reads this
    {
      number == |entries|
    }

    ghost function View(): Log
      reads this
    {
      Log(entries, file, synced, dirty)
    }

    constructor (epoch: nat)
      ensures Valid() && View() == EMPTY && this.epoch == epoch
    {
      this.epoch := epoch;
      number, file, synced, dirty := 0, [], 0, false;
      entries := [];
    }

    method AppendEvent(kind: string, payload: Json, mono: nat, wall: string)
      requires Valid()
      modifies this
      ensures Valid() && View() == Append(old(View()), Entry(epoch, mono, wall, kind, payload))
    {
      number := number + 1;
      var entry := Entry(epoch, mono, wall, kind, payload);
      var line := Write(RecordOf(number, entry)) + "\n";
      file := file + EncodeAll(line);
      entries := entries + [entry];
      if kind in WRITE_AHEAD {
        synced := |file|;
      } else {
        dirty := true;
      }
    }

    method FlushFile()
      requires Valid()
      modifies this
      ensures Valid() && View() == Flush(old(View()))
    {
      if !dirty {
        return;
      }
      synced := |file|;
      dirty := false;
    }
  }

  // ------------------------------------------------------------ concurrent payments

  /** Where a payment stands inside its submission slot. */
  datatype Phase = Intended | Signed(txHash: string) | Sent(txHash: string)

  /** The journal, the payments under way and the transactions handed to the network. */
  datatype State = State(log: Log, payments: map<nat, Phase>, broadcast: set<string>)

  const INITIAL := State(EMPTY, map[], {})

  /** Any producer may emit any event at any time, beside the stretches of the payments. */
  datatype Step =
    | Emit(entry: Entry)
    | Intend(payment: nat, entry: Entry)
    | Sign(payment: nat, op: string, txHash: string, blob: string, entry: Entry)
    | Send(payment: nat)
    | FlushTimer

  function SignedPayload(op: string, txHash: string, blob: string): Json {
    Obj([Member("op", Str(op)), Member("txHash", Str(txHash)), Member("blob", Str(blob))])
  }

  predicate NamesTx(payload: Json, txHash: string) {
    payload.Obj? && Member("txHash", Str(txHash)) in payload.members
  }

  /** The entry that records a signed transaction. */
  predicate Records(e: Entry, txHash: string) {
    e.kind == SIGNED && NamesTx(e.payload, txHash)
  }

  predicate Enabled(s: State, step: Step) {
    match step
    case Emit(_) => true
    case Intend(p, e) => p !in s.payments && e.kind == "op.payment.intent"
    case Sign(p, op, tx, blob, e) => p in s.payments && s.payments[p].Intended? && e.kind == SIGNED && e.payload == SignedPayload(op, tx, blob)
    case Send(p) => p in s.payments && s.payments[p].Signed?
    case FlushTimer => true
  }

  function Apply(s: State, step: Step): State
    requires Enabled(s, step)
  {
    match step
    case Emit(e) => s.(log := Append(s.log, e))
    case Intend(p, e) => s.(log := Append(s.log, e), payments := s.payments[p := Intended])
    case Sign(p, op, tx, blob, e) => s.(log := Append(s.log, e), payments := s.payments[p := Signed(tx)])
    case Send(p) => s.(payments := s.payments[p := Sent(s.payments[p].txHash)], broadcast := s.broadcast + {s.payments[p].txHash})
    case FlushTimer => s.(log := Flush(s.log))
  }

  ghost predicate IsRun(s: State, steps: seq<Step>)
    decreases |steps|
  {
    steps == [] || (Enabled(s, steps[0]) && IsRun(Apply(s, steps[0]), steps[1..]))
  }

  ghost function After(s: State, steps: seq<Step>): State
    requires IsRun(s, steps)
    decreases |steps|
  {
    if steps == [] then s else After(Apply(s, steps[0]), steps[1..])
  }

  // ------------------------------------------------------------ the invariant

  /** The records as numbered when they were appended. */
  function Numbered(entries: seq<Entry>): (records: seq<Json>)
    ensures |records| == |entries|
  {
    if entries == [] then [] else Numbered(entries[..|entries| - 1]) + [RecordOf(|entries|, entries[|entries| - 1])]
  }

  lemma {:induction false} NumberedAt(entries: seq<Entry>, i: nat)
    requires i < |entries|
    ensures Numbered(entries)[i] == RecordOf(i + 1, entries[i])
    decreases |entries|
  {
    if i < |entries| - 1 {
      NumberedAt(entries[..|entries| - 1], i);
    }
  }

  lemma {:induction false} NumberedPrefix(entries: seq<Entry>, d: nat)
    requires d <= |entries|
    ensures Numbered(entries)[..d] == Numbered(entries[..d])
    decreases |entries|
  {
    if d < |entries| {
      NumberedPrefix(entries[..|entries| - 1], d);
      assert entries[..|entries| - 1][..d] == entries[..d];
    } else {
      assert entries[..d] == entries;
    }
  }

  /** The file holds the records, and the durable part is the first `d` of them. */
  ghost predicate DurableAt(log: Log, d: nat) {
    d <= |log.entries| && log.file == EncodeAll(FileOf(Numbered(log.entries))) && log.synced == |EncodeAll(FileOf(Numbered(log.entries[..d])))|
  }

  ghost predicate Journaled(log: Log, d: nat, txHash: string) {
    exists i :: 0 <= i < d && i < |log.entries| && Records(log.entries[i], txHash)
  }

  /** Every signed or broadcast transaction is in the durable part. */
  ghost predicate AheadOfNetwork(s: State, d: nat) {
    && (forall p :: p in s.payments && !s.payments[p].Intended? ==> Journaled(s.log, d, s.payments[p].txHash))
    && (forall tx :: tx in s.broadcast ==> Journaled(s.log, d, tx))
  }

  /** Every entry of a write-ahead type is in the durable part. */
  ghost predicate WrittenAhead(log: Log, d: nat) {
    forall i :: 0 <= i < |log.entries| && log.entries[i].kind in WRITE_AHEAD ==> i < d
  }

  ghost predicate Inv(s: State, d: nat) {
    DurableAt(s.log, d) && WrittenAhead(s.log, d) && AheadOfNetwork(s, d)
  }

  /** How far the durable part reaches after an append. */
  ghost function Reach(log: Log, d: nat, e: Entry): nat {
    if e.kind in WRITE_AHEAD then |log.entries| + 1 else d
  }

  lemma {:induction false} JournaledKept(log: Log, d: nat, log': Log, d': nat)
    requires d <= d' && |log.entries| <= |log'.entries| && log'.entries[..|log.entries|] == log.entries
    ensures forall tx :: Journaled(log, d, tx) ==> Journaled(log', d', tx)
  {
    forall tx | Journaled(log, d, tx)
      ensures Journaled(log', d', tx)
    {
      var i :| 0 <= i < d && i < |log.entries| && Records(log.entries[i], tx);
      assert log'.entries[i] == log'.entries[..|log.entries|][i];
    }
  }

  lemma {:induction false} AppendKeeps(log: Log, d: nat, e: Entry)
    requires DurableAt(log, d) && WrittenAhead(log, d)
    ensures DurableAt(Append(log, e), Reach(log, d, e)) && d <= Reach(log, d, e)
    ensures WrittenAhead(Append(log, e), Reach(log, d, e))
    ensures forall tx :: Journaled(log, d, tx) ==> Journaled(Append(log, e), Reach(log, d, e), tx)
  {
    var log' := Append(log, e);
    assert log'.entries[..|log.entries|] == log.entries;
    JournaledKept(log, d, log', Reach(log, d, e));
    FileGrows(log, e);
    assert log'.entries[..d] == log.entries[..d];
    assert log'.entries[..|log'.entries|] == log'.entries;
  }

  lemma {:induction false} FileGrows(log: Log, e: Entry)
    requires log.file == EncodeAll(FileOf(Numbered(log.entries)))
    ensures Append(log, e).file == EncodeAll(FileOf(Numbered(Append(log, e).entries)))
  {
    var entries := log.entries + [e];
    assert entries[..|entries| - 1] == log.entries;
    FileOfAppend(Numbered(log.entries), RecordOf(|entries|, e));
    EncodeConcat(FileOf(Numbered(log.entries)), Write(RecordOf(|entries|, e)) + "\n");
  }

  /** Appending a signed record makes it durable at once. */
  lemma SignedIsDurable(log: Log, d: nat, e: Entry, txHash: string)
    requires Records(e, txHash)
    ensures Journaled(Append(log, e), Reach(log, d, e), txHash)
  {
    assert Append(log, e).entries[|log.entries|] == e;
    assert SIGNED in WRITE_AHEAD;
  }

  lemma {:induction false} FlushKeeps(log: Log, d: nat)
    requires DurableAt(log, d) && WrittenAhead(log, d)
    ensures var d' := if log.dirty then |log.entries| else d;
            DurableAt(Flush(log), d') && WrittenAhead(Flush(log), d') && d <= d' && forall tx :: Journaled(log, d, tx) ==> Journaled(Flush(log), d', tx)
  {
    assert log.entries[..|log.entries|] == log.entries;
    JournaledKept(log, d, Flush(log), if log.dirty then |log.entries| else d);
  }

  /** A journal that only grew still covers what it covered; any newly signed transaction must be covered too. */
  lemma {:induction false} StillAhead(s: State, d: nat, s': State, d': nat)
    requires AheadOfNetwork(s, d) && s'.broadcast == s.broadcast
    requires forall tx :: Journaled(s.log, d, tx) ==> Journaled(s'.log, d', tx)
    requires forall p :: p in s'.payments && !s'.payments[p].Intended? ==>
               Journaled(s'.log, d', s'.payments[p].txHash) || (p in s.payments && s.payments[p] == s'.payments[p])
    ensures AheadOfNetwork(s', d')
  {
  }

  lemma {:induction false} SignedEntry(e: Entry, op: string, txHash: string, blob: string)
    requires e.kind == SIGNED && e.payload == SignedPayload(op, txHash, blob)
    ensures Records(e, txHash)
  {
    assert e.payload.members[1] == Member("txHash", Str(txHash));
  }

  lemma {:induction false} SignKeeps(s: State, d: nat, step: Step)
    requires Inv(s, d) && step.Sign? && Enabled(s, step)
    ensures Inv(Apply(s, step), Reach(s.log, d, step.entry))
  {
    var e, tx := step.entry, step.txHash;
    AppendKeeps(s.log, d, e);
    SignedEntry(e, step.op, tx, step.blob);
    SignedIsDurable(s.log, d, e, tx);
    SignKeepsAhead(s, d, step.payment, tx, Append(s.log, e), Reach(s.log, d, e));
  }

  lemma {:induction false} SignKeepsAhead(s: State, d: nat, p: nat, tx: string, log: Log, d': nat)
    requires AheadOfNetwork(s, d) && Journaled(log, d', tx)
    requires forall t :: Journaled(s.log, d, t) ==> Journaled(log, d', t)
    ensures AheadOfNetwork(s.(log := log, payments := s.payments[p := Signed(tx)]), d')
  {
    StillAhead(s, d, s.(log := log, payments := s.payments[p := Signed(tx)]), d');
  }

  lemma {:induction false} StepKeeps(s: State, d: nat, step: Step) returns (d': nat)
    requires Inv(s, d) && Enabled(s, step)
    ensures Inv(Apply(s, step), d')
  {
    match step
    case Emit(e) =>
      AppendKeeps(s.log, d, e);
      d' := Reach(s.log, d, e);
      StillAhead(s, d, Apply(s, step), d');
    case Intend(p, e) =>
      AppendKeeps(s.log, d, e);
      d' := Reach(s.log, d, e);
      StillAhead(s, d, Apply(s, step), d');
    case Sign(p, op, tx, blob, e) =>
      SignKeeps(s, d, step);
      d' := Reach(s.log, d, e);
    case Send(p) => d' := d;
    case FlushTimer =>
      FlushKeeps(s.log, d);
      d' := if s.log.dirty then |s.log.entries| else d;
  }

  lemma {:induction false} RunKeeps(s: State, d: nat, steps: seq<Step>) returns (d': nat)
    requires Inv(s, d) && IsRun(s, steps)
    ensures Inv(After(s, steps), d')
    decreases |steps|
  {
    d' := d;
    if steps != [] {
      d' := StepKeeps(s, d, steps[0]);
      d' := RunKeeps(Apply(s, steps[0]), d', steps[1..]);
    }
  }

  // ------------------------------------------------------------ crash safety

  /** The events an irreversible effect follows. */
  predicate Critical(kind: string) {
    || kind == "op.intended" || kind == "op.payment.intent" || kind == SIGNED
    || kind == "webhook.received" || kind == "funding.record" || kind == "run.started"
  }

  /**
   * After any interleaving of payments, other events and flushes, a crash that keeps at least
   * what was fsynced leaves a journal whose lenient recovery is a beginning of the appended
   * records, numbered from one, that holds the signed record of every broadcast transaction
   * and every intent, webhook capture, funding record and run start appended so far.
   */
  lemma {:induction false} CrashSafe(parse: Parser, steps: seq<Step>, n: nat) returns (k: nat)
    requires RejectsTorn(parse) && IsRun(INITIAL, steps)
    requires ReadsBack(parse, Numbered(After(INITIAL, steps).log.entries))
    requires After(INITIAL, steps).log.synced <= n <= |After(INITIAL, steps).log.file|
    ensures var s := After(INITIAL, steps);
            && k <= |s.log.entries|
            && ReadBytes(parse, s.log.file[..n], true) == Ok(Numbered(s.log.entries)[..k])
            && (forall i :: 0 <= i < k ==> Carries(Numbered(s.log.entries)[i], i + 1, s.log.entries[i]))
            && (forall tx :: tx in s.broadcast ==> exists i :: 0 <= i < k && Records(s.log.entries[i], tx))
            && (forall i :: 0 <= i < |s.log.entries| && Critical(s.log.entries[i].kind) ==> i < k)
  {
    var s := After(INITIAL, steps);
    assert Inv(INITIAL, 0);
    var d := RunKeeps(INITIAL, 0, steps);
    var records := Numbered(s.log.entries);
    k := RecoveryIsPrefix(parse, records, n);
    NumberedPrefix(s.log.entries, d);
    assert |EncodeAll(FileOf(records[..d]))| <= n;
    forall i | 0 <= i < k
      ensures Carries(records[i], i + 1, s.log.entries[i])
    {
      NumberedAt(s.log.entries, i);
      RecordCarries(i + 1, s.log.entries[i]);
    }
    forall tx | tx in s.broadcast
      ensures exists i :: 0 <= i < k && Records(s.log.entries[i], tx)
    {
      assert Journaled(s.log, d, tx);
    }
  }

  // ------------------------------------------------------------ flushing

  /** What is not marked to be flushed is durable. */
  ghost predicate Marked(log: Log) {
    log.synced <= |log.file| && (!log.dirty ==> log.synced == |log.file|)
  }

  lemma {:induction false} MarkedKept(s: State, steps: seq<Step>)
    requires Marked(s.log) && IsRun(s, steps)
    ensures Marked(After(s, steps).log)
    decreases |steps|
  {
    if steps != [] {
      MarkedKept(Apply(s, steps[0]), steps[1..]);
    }
  }

  /** A crash after a flush loses nothing that was appended before it. */
  lemma {:induction false} FlushedIsSafe(parse: Parser, steps: seq<Step>, s: State, n: nat, lenient: bool)
    requires IsRun(INITIAL, steps) && s == Apply(After(INITIAL, steps), FlushTimer)
    requires JsonReads(parse, s) && s.log.synced <= n <= |s.log.file|
    ensures n == |s.log.file| && ReadBytes(parse, s.log.file[..n], lenient) == Ok(Numbered(s.log.entries))
  {
    MarkedKept(INITIAL, steps);
    var d := RunKeeps(INITIAL, 0, steps);
    assert s.log.file[..n] == s.log.file;
    RoundTrip(FileOf(Numbered(s.log.entries)));
    ReadWhole(parse, Numbered(s.log.entries), lenient);
  }

  ghost predicate JsonReads(parse: Parser, s: State) {
    Journal.ReadsBack(parse, Numbered(s.log.entries))
  }

  // ------------------------------------------------------------ the code of a payment

  /** One payment's stretches between awaits, on the shared journal. */
  class Payments {
    const journal: JournalFile
    var payments: map<nat, Phase>
    var broadcast: set<string>

    ghost predicate Valid()
      reads this, journal
    {
      journal.Valid()
    }

    ghost function View(): State
      reads this, journal
    {
      State(journal.View(), payments, broadcast)
    }

    constructor (epoch: nat)
      ensures Valid() && View() == INITIAL && fresh(journal)
    {
      journal := new JournalFile(epoch);
      payments := map[];
      broadcast := {};
    }

    method JournalIntent(payment: nat, payload: Json, mono: nat, wall: string)
      requires Valid() && payment !in payments
      modifies this, journal
      ensures Valid()
      ensures View() == Apply(old(View()), Intend(payment, Entry(journal.epoch, mono, wall, "op.payment.intent", payload)))
    {
      journal.AppendEvent("op.payment.intent", payload, mono, wall);
      payments := payments[payment := Intended];
    }

    method JournalSigned(payment: nat, op: string, txHash: string, blob: string, mono: nat, wall: string)
      requires Valid() && payment in payments && payments[payment].Intended?
      modifies this, journal
      ensures Valid()
      ensures View() == Apply(old(View()), Sign(payment, op, txHash, blob, Entry(journal.epoch, mono, wall, SIGNED, SignedPayload(op, txHash, blob))))
    {
      journal.AppendEvent(SIGNED, SignedPayload(op, txHash, blob), mono, wall);
      payments := payments[payment := Signed(txHash)];
    }

    method Broadcast(payment: nat)
      requires Valid() && payment in payments && payments[payment].Signed?
      modifies this
      ensures Valid() && View() == Apply(old(View()), Send(payment))
    {
      var txHash := payments[payment].txHash;
      broadcast := broadcast + {txHash};
      payments := payments[payment := Sent(txHash)];
    }
  }
}
