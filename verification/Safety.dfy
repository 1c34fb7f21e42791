/**
 The safety manager: per session write budget, read set and capped audit log, and the source
 of the project storage limit.
 */
module Safety {
  import opened Common

  const AUDIT_CAP := 500

  datatype Key = Key(person: string, project: string)

  datatype AuditEntry = AuditEntry(timestamp: int, op: string, path: string, detail: string)

  datatype Session = Session(readPaths: set<string>, bytesWritten: int, audit: seq<AuditEntry>)

  type Sessions = map<Key, Session>

  /** Where project limits come from; `Admin` maps each known project to its limit. */
  datatype Limits = Unattached | Unlimited | Admin(quotas: map<string, Option<int>>)

  datatype Error =
    | Internal
    | ProjectNotFound(project: string)
    | ProjectQuotaExceeded(limit: int, used: int, requested: int)
    | WriteQuotaExceeded(quota: int)
    | EditWithoutPriorRead(path: string)

  const FRESH: Session := Session({}, 0, [])

  /** The session of `k`, fresh when nothing was recorded for it yet. */
  function Of(sessions: Sessions, k: Key): Session {
    if k in sessions then sessions[k] else FRESH
  }

  function Remaining(quota: int, s: Session): int {
    Max(quota - s.bytesWritten, 0)
  }

  predicate ChargeFits(quota: int, s: Session, n: int) {
    s.bytesWritten + n <= quota
  }

  function Charged(s: Session, n: int): Session {
    s.(bytesWritten := s.bytesWritten + n)
  }

  function Refunded(s: Session, n: int): Session {
    s.(bytesWritten := Max(s.bytesWritten - n, 0))
  }

  function LastOf<T>(n: nat, xs: seq<T>): seq<T> {
    if |xs| <= n then xs else xs[|xs| - n..]
  }

  function LimitOf(limits: Limits, project: string): Result<Option<int>, Error> {
    match limits
    case Admin(quotas) => if project in quotas then Ok(quotas[project]) else Err(ProjectNotFound(project))
    case Unlimited => Ok(None)
    case Unattached => Err(Internal)
  }

  class SafetyManager {
    const writeQuotaBytes: int
    const readGuard: bool
    var sessions: Sessions
    var limits: Limits

    constructor (writeQuotaBytes: int, readGuard: bool)
      ensures this.writeQuotaBytes == writeQuotaBytes && this.readGuard == readGuard
      ensures sessions == map[] && limits == Unattached
    {
      this.writeQuotaBytes := writeQuotaBytes;
      this.readGuard := readGuard;
      sessions := map[];
      limits := Unattached;
    }

    /** The first source attached stays; a later call is ignored. */
    method Attach(source: Limits)
      requires !source.Unattached?
      modifies this`limits
      ensures limits == Attached(old(limits), [source])
    {
      if limits.Unattached? {
        limits := source;
      }
    }

    method ChargeWrite(k: Key, n: int) returns (r: Result<(), Error>)
      modifies this`sessions
      ensures r == if ChargeFits(writeQuotaBytes, Of(old(sessions), k), n) then Ok(()) else Err(WriteQuotaExceeded(writeQuotaBytes))
      ensures sessions == old(sessions)[k := if r.Ok? then Charged(Of(old(sessions), k), n) else Of(old(sessions), k)]
      ensures r.Ok? <==> (if k in old(sessions) then old(sessions)[k].bytesWritten else 0) + n <= writeQuotaBytes
      ensures r.Err? ==> r.error == WriteQuotaExceeded(writeQuotaBytes)
      ensures sessions[k].bytesWritten == (if k in old(sessions) then old(sessions)[k].bytesWritten else 0) + if r.Ok? then n else 0
      ensures sessions[k].readPaths == if k in old(sessions) then old(sessions)[k].readPaths else {}
      ensures sessions[k].audit == if k in old(sessions) then old(sessions)[k].audit else []
      ensures n >= 0 ==> sessions == Step(writeQuotaBytes, old(sessions), Charge(k, n))
    {
      var s := Of(sessions, k);
      sessions := sessions[k := s];
      if s.bytesWritten + n > writeQuotaBytes {
        return Err(WriteQuotaExceeded(writeQuotaBytes));
      }
      sessions := sessions[k := s.(bytesWritten := s.bytesWritten + n)];
      r := Ok(());
    }

    method SessionRemaining(k: Key) returns (n: int)
      modifies this`sessions
      ensures n == Remaining(writeQuotaBytes, Of(old(sessions), k))
      ensures n == Max(writeQuotaBytes - (if k in old(sessions) then old(sessions)[k].bytesWritten else 0), 0)
      ensures forall j :: Of(sessions, j) == Of(old(sessions), j)
    {
      var s := Of(sessions, k);
      sessions := sessions[k := s];
      n := Max(writeQuotaBytes - s.bytesWritten, 0);
    }

    method RefundWrite(k: Key, n: int)
      modifies this`sessions
      ensures sessions == old(sessions)[k := Refunded(Of(old(sessions), k), n)]
      ensures sessions[k].bytesWritten == Max((if k in old(sessions) then old(sessions)[k].bytesWritten else 0) - n, 0)
      ensures n >= 0 ==> sessions == Step(writeQuotaBytes, old(sessions), Refund(k, n))
    {
      var s := Of(sessions, k);
      sessions := sessions[k := s.(bytesWritten := Max(s.bytesWritten - n, 0))];
    }

    method RecordRead(k: Key, path: string)
      modifies this`sessions
      ensures sessions == Step(writeQuotaBytes, old(sessions), Read(k, path))
      ensures sessions[k].bytesWritten == Of(old(sessions), k).bytesWritten && sessions[k].audit == Of(old(sessions), k).audit
    {
      var s := Of(sessions, k);
      sessions := sessions[k := s.(readPaths := s.readPaths + {path})];
    }

    method EnsureReadBeforeWrite(k: Key, path: string) returns (r: Result<(), Error>)
      modifies this`sessions
      ensures r == if !readGuard || path in Of(old(sessions), k).readPaths then Ok(()) else Err(EditWithoutPriorRead(path))
      ensures forall j :: Of(sessions, j) == Of(old(sessions), j)
    {
      if !readGuard {
        return Ok(());
      }
      var s := Of(sessions, k);
      sessions := sessions[k := s];
      r := if path in s.readPaths then Ok(()) else Err(EditWithoutPriorRead(path));
    }

    /** Appends one entry and drops the oldest ones past the cap. */
    method RecordAudit(k: Key, entry: AuditEntry)
      modifies this`sessions
      ensures sessions == Step(writeQuotaBytes, old(sessions), Audit(k, entry))
      ensures sessions == old(sessions)[k := Of(old(sessions), k).(audit := sessions[k].audit)]
      ensures var log := Of(old(sessions), k).audit + [entry];
              |sessions[k].audit| == Min(500, |log|) && sessions[k].audit == log[|log| - |sessions[k].audit|..]
    {
      var s := Of(sessions, k);
      var log := s.audit + [entry];
      while |log| > AUDIT_CAP
        invariant LastOf(AUDIT_CAP, log) == LastOf(AUDIT_CAP, s.audit + [entry])
      {
        log := log[1..];
      }
      sessions := sessions[k := s.(audit := log)];
    }
  }

  /** One event of some session. */
  datatype Event = Charge(k: Key, n: nat) | Refund(k: Key, n: nat) | Audit(k: Key, entry: AuditEntry) | Read(k: Key, path: string)

  function Step(quota: int, sessions: Sessions, e: Event): Sessions {
    var s := Of(sessions, e.k);
    match e
    case Charge(k, n) => sessions[k := if ChargeFits(quota, s, n) then Charged(s, n) else s]
    case Refund(k, n) => sessions[k := Refunded(s, n)]
    case Audit(k, entry) => sessions[k := s.(audit := LastOf(AUDIT_CAP, s.audit + [entry]))]
    case Read(k, path) => sessions[k := s.(readPaths := s.readPaths + {path})]
  }

  function Run(quota: int, sessions: Sessions, events: seq<Event>): Sessions
    decreases |events|
  {
    if events == [] then sessions else Run(quota, Step(quota, sessions, events[0]), events[1..])
  }

  ghost predicate WithinQuota(quota: int, sessions: Sessions) {
    forall k :: 0 <= Of(sessions, k).bytesWritten <= quota
  }

  /** Over any run of charges and refunds every session's written bytes stay between 0 and the quota. */
  lemma {:induction false} RunStaysWithinQuota(quota: int, sessions: Sessions, events: seq<Event>)
    requires WithinQuota(quota, sessions)
    ensures WithinQuota(quota, Run(quota, sessions, events))
    decreases |events|
  {
    if events != [] {
      var next := Step(quota, sessions, events[0]);
      forall k ensures 0 <= Of(next, k).bytesWritten <= quota {
        assert 0 <= Of(sessions, k).bytesWritten <= quota;
      }
      RunStaysWithinQuota(quota, next, events[1..]);
    }
  }

  /**
   In every state a run reaches from an empty manager, a charge is accepted exactly when it is
   at most what `session_remaining` answers there, and its refund restores the session.
   */
  lemma ChargeAcceptedIffRemaining(quota: int, events: seq<Event>, k: Key, n: nat)
    requires quota >= 0
    ensures var s := Of(Run(quota, map[], events), k);
            && (ChargeFits(quota, s, n) <==> n <= Remaining(quota, s))
            && Remaining(quota, s) == quota - s.bytesWritten
            && Refunded(Charged(s, n), n) == s
  {
    RunStaysWithinQuota(quota, map[], events);
  }

  /**
   Over any run a path may be written over exactly when that person read it in that project, whatever they or
   anyone else read, charged or logged in between.
   */
  lemma {:induction false} EditAllowedIffRead(quota: int, sessions: Sessions, events: seq<Event>, k: Key, path: string)
    ensures path in Of(Run(quota, sessions, events), k).readPaths
      <==> path in Of(sessions, k).readPaths || Read(k, path) in events
    decreases |events|
  {
    if events != [] {
      assert events == [events[0]] + events[1..];
      EditAllowedIffRead(quota, Step(quota, sessions, events[0]), events[1..], k, path);
    }
  }

  /** The source left after a series of attempts to attach one. */
  function Attached(limits: Limits, sources: seq<Limits>): Limits
    decreases |sources|
  {
    if sources == [] then limits
    else Attached(if limits.Unattached? then sources[0] else limits, sources[1..])
  }

  /** However often a source is attached, the first one decides from then on. */
  lemma FirstSourceDecides(sources: seq<Limits>)
    requires sources != [] && !sources[0].Unattached?
    ensures Attached(Unattached, sources) == sources[0]
  {
    SourceStays(sources[0], sources[1..]);
  }

  lemma {:induction false} SourceStays(limits: Limits, sources: seq<Limits>)
    requires !limits.Unattached?
    ensures Attached(limits, sources) == limits
    decreases |sources|
  {
    if sources != [] {
      SourceStays(limits, sources[1..]);
    }
  }

  function EntryOf(k: Key, e: Event): seq<AuditEntry> {
    if e.Audit? && e.k == k then [e.entry] else []
  }

  /** Every audit entry recorded for `k`, oldest first. */
  function AuditTrail(k: Key, events: seq<Event>): seq<AuditEntry>
    decreases |events|
  {
    if events == [] then [] else EntryOf(k, events[0]) + AuditTrail(k, events[1..])
  }

  /** What one event does to the audit log of `k`. */
  lemma StepAudit(quota: int, sessions: Sessions, e: Event, k: Key)
    requires |Of(sessions, k).audit| <= AUDIT_CAP
    ensures Of(Step(quota, sessions, e), k).audit == LastOf(AUDIT_CAP, Of(sessions, k).audit + EntryOf(k, e))
  {}

  /** The capped log is the last 500 entries of everything recorded, whatever else ran in between. */
  lemma {:induction false} AuditKeepsTheLastEntries(quota: int, sessions: Sessions, events: seq<Event>, k: Key)
    requires |Of(sessions, k).audit| <= AUDIT_CAP
    ensures Of(Run(quota, sessions, events), k).audit == LastOf(AUDIT_CAP, Of(sessions, k).audit + AuditTrail(k, events))
    decreases |events|
  {
    if events == [] {
      assert Of(sessions, k).audit + [] == Of(sessions, k).audit;
    } else {
      StepAudit(quota, sessions, events[0], k);
      AuditKeepsTheLastEntries(quota, Step(quota, sessions, events[0]), events[1..], k);
      LastOfInTwoSteps(AUDIT_CAP, Of(sessions, k).audit, EntryOf(k, events[0]), AuditTrail(k, events[1..]));
    }
  }

  lemma LastOfInTwoSteps<T>(n: nat, log: seq<T>, head: seq<T>, tail: seq<T>)
    ensures LastOf(n, LastOf(n, log + head) + tail) == LastOf(n, log + (head + tail))
  {
    LastOfAppends(n, log + head, tail);
    assert (log + head) + tail == log + (head + tail);
  }

  lemma LastOfAppends<T>(n: nat, xs: seq<T>, ys: seq<T>)
    ensures LastOf(n, LastOf(n, xs) + ys) == LastOf(n, xs + ys)
  {}
}
