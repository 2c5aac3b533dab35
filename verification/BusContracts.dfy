/**
 * The messages of crates/gum-contracts/src/bus.rs and the deduplication keys
 * their producers choose. Keys are real texts; payload fields that no key
 * reads are kept as one opaque `body`.
 */
module BusContracts {
  import opened Prelude
  import Decimal

  /** The 32 hexadecimal digits of a UUID, most significant first. */
  type Uuid = s: seq<nat> | |s| == 32 && forall i :: 0 <= i < 32 ==> s[i] < 16
    witness seq(32, _ => 0)

  datatype Message =
    | SweepBatch(jobId: Uuid, body: string)
    | WithdrawalStep(jobId: Uuid, body: string)
    | SweepSubmitted(jobId: Uuid, replacement: nat, body: string)
    | SweepFinalized(jobId: Uuid, body: string)
    | SweepAbandoned(jobId: Uuid, body: string)
    | WithdrawalStepFinalized(jobId: Uuid, body: string)
    | ExecutionStalled(jobId: Uuid, submissions: nat, body: string)
    | ExecutionRejected(jobId: Uuid, body: string)
    | Halted(faultId: Uuid, chainId: nat, body: string)
    | Resumed(faultId: Uuid, chainId: nat)

  datatype Topic = ExecutionCommands | ExecutionEvents | ChainControl

  function TopicOf(m: Message): Topic {
    match m
    case SweepBatch(_, _) => ExecutionCommands
    case WithdrawalStep(_, _) => ExecutionCommands
    case Halted(_, _, _) => ChainControl
    case Resumed(_, _) => ChainControl
    case _ => ExecutionEvents
  }

  function Kind(m: Message): string {
    match m
    case SweepBatch(_, _) => "sweep_batch"
    case WithdrawalStep(_, _) => "withdrawal_step"
    case SweepSubmitted(_, _, _) => "sweep_submitted"
    case SweepFinalized(_, _) => "sweep_finalized"
    case SweepAbandoned(_, _) => "sweep_abandoned"
    case WithdrawalStepFinalized(_, _) => "withdrawal_step_finalized"
    case ExecutionStalled(_, _, _) => "execution_stalled"
    case ExecutionRejected(_, _) => "execution_rejected"
    case Halted(_, _, _) => "halted"
    case Resumed(_, _) => "resumed"
  }

  function Hex(s: seq<nat>): (t: string)
    requires forall i :: 0 <= i < |s| ==> s[i] < 16
    ensures |t| == |s|
  {
    seq(|s|, i requires 0 <= i < |s| => HexDigit(s[i]))
  }

  /** The place of the i-th digit in the hyphenated 8-4-4-4-12 form. */
  function PlaceOf(i: nat): nat {
    i + (if i < 8 then 0 else if i < 12 then 1 else if i < 16 then 2 else if i < 20 then 3 else 4)
  }

  /** The hyphenated 8-4-4-4-12 form. */
  function UuidText(u: Uuid): (t: string)
    ensures |t| == 36
    ensures ':' !in t
  {
    Hex(u[..8]) + "-" + Hex(u[8..12]) + "-" + Hex(u[12..16]) + "-" + Hex(u[16..20]) + "-" + Hex(u[20..])
  }

  lemma UuidLayout(u: Uuid)
    ensures var t := UuidText(u);
            && t[8] == '-' && t[13] == '-' && t[18] == '-' && t[23] == '-'
            && forall i :: 0 <= i < 32 ==> t[PlaceOf(i)] == HexDigit(u[i])
  {
  }

  function DeduplicationKey(m: Message): string {
    match m
    case SweepBatch(job, _) => UuidText(job)
    case WithdrawalStep(job, _) => UuidText(job)
    case SweepSubmitted(job, replacement, _) =>
      UuidText(job) + ":" + ("sweep_submitted:" + Decimal.Print(replacement))
    case ExecutionStalled(job, submissions, _) =>
      UuidText(job) + ":" + ("execution_stalled:" + Decimal.Print(submissions))
    case Halted(fault, chain, _) => Decimal.Print(chain) + ":" + ("halted:" + UuidText(fault))
    case Resumed(fault, chain) => Decimal.Print(chain) + ":" + ("resumed:" + UuidText(fault))
    case _ => UuidText(m.jobId) + ":" + Kind(m)
  }

  /** What an intent is: its topic, its job or fault, its kind, and its counter. */
  datatype Identity =
    | CommandFor(job: Uuid)
    | EventFor(job: Uuid, kind: string, counter: Option<nat>)
    | ControlFor(chain: nat, kind: string, fault: Uuid)

  function IdentityOf(m: Message): Identity {
    match m
    case SweepBatch(job, _) => CommandFor(job)
    case WithdrawalStep(job, _) => CommandFor(job)
    case SweepSubmitted(job, replacement, _) => EventFor(job, Kind(m), Some(replacement))
    case ExecutionStalled(job, submissions, _) => EventFor(job, Kind(m), Some(submissions))
    case Halted(fault, chain, _) => ControlFor(chain, Kind(m), fault)
    case Resumed(fault, chain) => ControlFor(chain, Kind(m), fault)
    case _ => EventFor(m.jobId, Kind(m), None)
  }

  /** The texts of the keys: a command's job; an event's job, kind and counter; a notice's chain, kind and fault. */
  lemma KeyTexts(m: Message)
    ensures match IdentityOf(m)
            case CommandFor(job) => job == m.jobId && DeduplicationKey(m) == UuidText(job)
            case EventFor(job, kind, None) => job == m.jobId && DeduplicationKey(m) == UuidText(job) + ":" + kind
            case EventFor(job, kind, Some(n)) =>
              && job == m.jobId && (m.SweepSubmitted? || m.ExecutionStalled?) && n == (if m.SweepSubmitted? then m.replacement else m.submissions)
              && DeduplicationKey(m) == UuidText(job) + ":" + kind + ":" + Decimal.Print(n)
            case ControlFor(chain, kind, fault) =>
              && chain == m.chainId && fault == m.faultId
              && DeduplicationKey(m) == Decimal.Print(chain) + ":" + kind + ":" + UuidText(fault)
  {
    match m {
      case SweepSubmitted(job, n, _) =>
        assert "sweep_submitted:" == "sweep_submitted" + ":";
        Regroup(UuidText(job) + ":", "sweep_submitted", ":", Decimal.Print(n));
      case ExecutionStalled(job, n, _) =>
        assert "execution_stalled:" == "execution_stalled" + ":";
        Regroup(UuidText(job) + ":", "execution_stalled", ":", Decimal.Print(n));
      case Halted(fault, chain, _) =>
        assert "halted:" == "halted" + ":";
        Regroup(Decimal.Print(chain) + ":", "halted", ":", UuidText(fault));
      case Resumed(fault, chain) =>
        assert "resumed:" == "resumed" + ":";
        Regroup(Decimal.Print(chain) + ":", "resumed", ":", UuidText(fault));
      case _ =>
    }
  }

  lemma HexInjective(a: seq<nat>, b: seq<nat>)
    requires forall i :: 0 <= i < |a| ==> a[i] < 16
    requires forall i :: 0 <= i < |b| ==> b[i] < 16
    requires Hex(a) == Hex(b)
    ensures a == b
  {
    assert |a| == |Hex(a)| == |b|;
    forall i | 0 <= i < |a|
      ensures a[i] == b[i]
    {
      assert HexDigit(a[i]) == Hex(a)[i] == Hex(b)[i] == HexDigit(b[i]);
    }
  }

  lemma UuidTextInjective(a: Uuid, b: Uuid)
    requires UuidText(a) == UuidText(b)
    ensures a == b
  {
    var s, t := UuidText(a), UuidText(b);
    assert s[..8] == Hex(a[..8]) && t[..8] == Hex(b[..8]);
    assert s[9..13] == Hex(a[8..12]) && t[9..13] == Hex(b[8..12]);
    assert s[14..18] == Hex(a[12..16]) && t[14..18] == Hex(b[12..16]);
    assert s[19..23] == Hex(a[16..20]) && t[19..23] == Hex(b[16..20]);
    assert s[24..] == Hex(a[20..]) && t[24..] == Hex(b[20..]);
    HexInjective(a[..8], b[..8]);
    HexInjective(a[8..12], b[8..12]);
    HexInjective(a[12..16], b[12..16]);
    HexInjective(a[16..20], b[16..20]);
    HexInjective(a[20..], b[20..]);
    assert a == a[..8] + a[8..12] + a[12..16] + a[16..20] + a[20..];
    assert b == b[..8] + b[8..12] + b[12..16] + b[16..20] + b[20..];
  }

  /** The part of an event key after the job: the kind, then the counter if it has one. */
  function EventTail(kind: string, counter: Option<nat>): string {
    match counter
    case None => kind
    case Some(n) => kind + ":" + Decimal.Print(n)
  }

  lemma EventTailInjective(k1: string, c1: Option<nat>, k2: string, c2: Option<nat>)
    requires ':' !in k1 && ':' !in k2
    requires EventTail(k1, c1) == EventTail(k2, c2)
    ensures k1 == k2 && c1 == c2
  {
    assert c1.Some? ==> EventTail(k1, c1)[|k1|] == ':' && ':' in EventTail(k1, c1);
    assert c2.Some? ==> EventTail(k2, c2)[|k2|] == ':' && ':' in EventTail(k2, c2);
    if c1.Some? && c2.Some? {
      CutUnique(k1, Decimal.Print(c1.value), k2, Decimal.Print(c2.value), ':');
      Decimal.PrintInjective(c1.value, c2.value);
    }
  }

  /** Event kinds are plain words, so the colon separates. */
  lemma EventKindHasNoColon(m: Message)
    requires TopicOf(m) == ExecutionEvents
    ensures IdentityOf(m).EventFor? && ':' !in IdentityOf(m).kind
  {
    assert ':' !in "sweep_submitted" && ':' !in "sweep_finalized" && ':' !in "sweep_abandoned";
    assert ':' !in "withdrawal_step_finalized" && ':' !in "execution_stalled" && ':' !in "execution_rejected";
  }

  /** A key is its job text, a colon and the tail: the shape injectivity reads off. */
  lemma EventKeyShape(m: Message)
    requires TopicOf(m) == ExecutionEvents
    ensures IdentityOf(m).EventFor?
    ensures DeduplicationKey(m) ==
            UuidText(IdentityOf(m).job) + ":" + EventTail(IdentityOf(m).kind, IdentityOf(m).counter)
  {
    assert "sweep_submitted:" == "sweep_submitted" + ":";
    assert "execution_stalled:" == "execution_stalled" + ":";
  }

  lemma ControlKeyInjective(a: Message, b: Message)
    requires TopicOf(a) == TopicOf(b) == ChainControl
    requires DeduplicationKey(a) == DeduplicationKey(b)
    ensures IdentityOf(a) == IdentityOf(b)
  {
    var ta := if a.Halted? then "halted" else "resumed";
    var tb := if b.Halted? then "halted" else "resumed";
    assert "halted:" == "halted" + ":" && "resumed:" == "resumed" + ":";
    var ra := ta + ":" + UuidText(a.faultId);
    var rb := tb + ":" + UuidText(b.faultId);
    assert DeduplicationKey(a) == Decimal.Print(a.chainId) + [':'] + ra;
    assert DeduplicationKey(b) == Decimal.Print(b.chainId) + [':'] + rb;
    CutUnique(Decimal.Print(a.chainId), ra, Decimal.Print(b.chainId), rb, ':');
    CutUnique(ta, UuidText(a.faultId), tb, UuidText(b.faultId), ':');
    Decimal.PrintInjective(a.chainId, b.chainId);
    UuidTextInjective(a.faultId, b.faultId);
  }

  /**
   * Within a topic, two messages share a key exactly when they are the same
   * intent: the same job for a command, the same (job, kind, counter) for an
   * event, the same (chain, kind, fault) for a control notice.
   */
  lemma SameKeyExactlySameIntent(a: Message, b: Message)
    requires TopicOf(a) == TopicOf(b)
    ensures DeduplicationKey(a) == DeduplicationKey(b) <==> IdentityOf(a) == IdentityOf(b)
  {
    match TopicOf(a) {
      case ExecutionCommands =>
        if DeduplicationKey(a) == DeduplicationKey(b) {
          UuidTextInjective(a.jobId, b.jobId);
        }
      case ExecutionEvents =>
        EventKeyShape(a);
        EventKeyShape(b);
        EventKindHasNoColon(a);
        EventKindHasNoColon(b);
        var ia, ib := IdentityOf(a), IdentityOf(b);
        if DeduplicationKey(a) == DeduplicationKey(b) {
          CutUnique(UuidText(ia.job), EventTail(ia.kind, ia.counter),
                    UuidText(ib.job), EventTail(ib.kind, ib.counter), ':');
          UuidTextInjective(ia.job, ib.job);
          EventTailInjective(ia.kind, ia.counter, ib.kind, ib.counter);
        }
      case ChainControl =>
        if DeduplicationKey(a) == DeduplicationKey(b) {
          ControlKeyInjective(a, b);
        }
    }
  }
}
