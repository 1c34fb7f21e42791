/**
 Storage admission: the one check every write that adds bytes goes through. Each entry point
 takes the volume's lock, works out the net byte change, checks the project limit and only
 then charges the session.
 */
module Quota {
  import opened Common
  import opened Volume
  import opened Safety

  type Pair = (Path, nat)

  class VolumeClient {
    const projectId: string
    var tree: Tree
    /** The counter row the node transactions keep. */
    var usedBytes: int
    /** Whether some admission is held. */
    var locked: bool

    ghost predicate Valid()
      reads this
    {
      usedBytes == Usage(tree)
    }

    constructor (projectId: string)
      ensures Valid() && this.projectId == projectId && tree == map[] && !locked
    {
      this.projectId := projectId;
      tree := map[];
      usedBytes := 0;
      locked := false;
    }

    /** One write of an admitted operation: the tree and the counter move together. */
    method Write(c: Change)
      requires Valid()
      modifies this`tree, this`usedBytes
      ensures Valid() && tree == ApplyOne(old(tree), c)
    {
      UsageStep(tree, c);
      usedBytes := usedBytes + NewSize(c) - SizeAt(tree, c.path);
      tree := ApplyOne(tree, c);
    }

    /** Dropping the admission releases the lock. */
    method Release()
      requires locked
      modifies this`locked
      ensures !locked
    {
      locked := false;
    }
  }

  lemma UsageStep(t: Tree, c: Change)
    ensures Usage(ApplyOne(t, c)) == Usage(t) - SizeAt(t, c.path) + NewSize(c)
  {
    UsageSplit(t, c.path);
    UsageSplit(ApplyOne(t, c), c.path);
    assert ApplyOne(t, c) - {c.path} == t - {c.path};
  }

  /** The `(path, new size)` list an operation hands in for its writes; a removed path has size 0. */
  function Listing(changes: seq<Change>): seq<Pair>
    ensures |Listing(changes)| == |changes|
  {
    if changes == [] then [] else [(changes[0].path, NewSize(changes[0]))] + Listing(changes[1..])
  }

  function Listed(pairs: seq<Pair>): set<Path> {
    set x | x in pairs :: x.0
  }

  /** The sum over each listed path's last occurrence of its new size minus its current one. */
  function NetChange(t: Tree, pairs: seq<Pair>): int
    decreases |pairs|
  {
    if pairs == [] then 0
    else
      NetChange(t, pairs[1..]) +
      if pairs[0].0 in Listed(pairs[1..]) then 0 else pairs[0].1 - SizeAt(t, pairs[0].0)
  }

  lemma {:induction false} ListedPaths(changes: seq<Change>)
    ensures Listed(Listing(changes)) == Paths(changes)
  {
    if changes != [] {
      var c, rest := changes[0], changes[1..];
      ListedPaths(rest);
      PathsOfCons(c, rest);
      assert changes == [c] + rest;
      var head: Pair := (c.path, NewSize(c));
      assert forall x :: x in [head] + Listing(rest) <==> x == head || x in Listing(rest);
      assert Listed([head] + Listing(rest)) == Listed(Listing(rest)) + {head.0};
    }
  }

  /** A write that a later write of the list overwrites does not change the outcome. */
  lemma OverwrittenWrite(t: Tree, c: Change, rest: seq<Change>)
    requires c.path in Paths(rest)
    ensures Usage(Apply(ApplyOne(t, c), rest)) == Usage(Apply(t, rest))
  {
    UsageAfter(t, rest);
    UsageAfter(ApplyOne(t, c), rest);
    assert ApplyOne(t, c) - Paths(rest) == t - Paths(rest);
  }

  /** A write no later one touches moves the outcome by its own change. */
  lemma LastingWrite(t: Tree, c: Change, rest: seq<Change>)
    requires c.path !in Paths(rest)
    ensures Usage(Apply(ApplyOne(t, c), rest)) == Usage(Apply(t, rest)) + NewSize(c) - SizeAt(t, c.path)
  {
    var ps := Paths(rest);
    UsageAfter(t, rest);
    UsageAfter(ApplyOne(t, c), rest);
    UsageSplit(t - ps, c.path);
    UsageSplit(ApplyOne(t, c) - ps, c.path);
    assert (t - ps) - {c.path} == (ApplyOne(t, c) - ps) - {c.path};
  }

  /**
   The reverse walk over a list with duplicates charges exactly what applying the writes in
   forward order does to the usage.
   */
  lemma {:induction false} NetChangeIsUsageDifference(t: Tree, changes: seq<Change>)
    ensures NetChange(t, Listing(changes)) == Usage(Apply(t, changes)) - Usage(t)
    decreases |changes|
  {
    if changes != [] {
      var c, rest := changes[0], changes[1..];
      NetChangeIsUsageDifference(t, rest);
      ListedPaths(rest);
      assert Listing(changes)[1..] == Listing(rest);
      if c.path in Paths(rest) {
        OverwrittenWrite(t, c, rest);
      } else {
        LastingWrite(t, c, rest);
      }
    }
  }

  /** The project limit check: only growth is checked, and reaching the limit is allowed. */
  function ProjectCheck(limits: Limits, project: string, used: int, delta: int): Result<(), Error> {
    if delta <= 0 then Ok(())
    else
      match LimitOf(limits, project)
      case Err(e) => Err(e)
      case Ok(None) => Ok(())
      case Ok(Some(limit)) => if used + delta > limit then Err(ProjectQuotaExceeded(limit, used, delta)) else Ok(())
  }

  /** What an admission answers: the project check first, then the session charge. */
  function Verdict(limits: Limits, project: string, used: int, delta: int, quota: int, s: Session, bytes: int): Result<(), Error> {
    var check := ProjectCheck(limits, project, used, delta);
    if check.Err? then check
    else if ChargeFits(quota, s, bytes) then Ok(()) else Err(WriteQuotaExceeded(quota))
  }

  method CheckAndCharge(client: VolumeClient, safety: SafetyManager, k: Key, sessionBytes: int, delta: int)
      returns (r: Result<(), Error>)
    requires client.Valid()
    modifies safety`sessions
    ensures r == Verdict(safety.limits, client.projectId, Usage(client.tree), delta, safety.writeQuotaBytes,
                         Of(old(safety.sessions), k), sessionBytes)
    ensures r.Ok? ==> safety.sessions == old(safety.sessions)[k := Charged(Of(old(safety.sessions), k), sessionBytes)]
    ensures r.Err? ==> forall j :: Of(safety.sessions, j) == Of(old(safety.sessions), j)
  {
    if delta > 0 {
      var limit := LimitOf(safety.limits, client.projectId);
      if limit.Err? {
        return Err(limit.error);
      }
      if limit.value.Some? {
        var used := client.usedBytes;
        if used + delta > limit.value.value {
          return Err(ProjectQuotaExceeded(limit.value.value, used, delta));
        }
      }
    }
    r := safety.ChargeWrite(k, sessionBytes);
  }

  /** Admission of a change worked out by the caller, before it holds the lock. */
  method Admit(client: VolumeClient, safety: SafetyManager, k: Key, sessionBytes: int, delta: int)
      returns (r: Result<(), Error>)
    requires client.Valid() && !client.locked
    modifies safety`sessions, client`locked
    ensures client.locked == r.Ok?
    ensures r == Verdict(safety.limits, client.projectId, Usage(client.tree), delta, safety.writeQuotaBytes,
                         Of(old(safety.sessions), k), sessionBytes)
    ensures r.Ok? ==> safety.sessions == old(safety.sessions)[k := Charged(Of(old(safety.sessions), k), sessionBytes)]
    ensures r.Err? ==> forall j :: Of(safety.sessions, j) == Of(old(safety.sessions), j)
  {
    client.locked := true;
    r := CheckAndCharge(client, safety, k, sessionBytes, delta);
    client.locked := r.Ok?;
  }

  /** Admission of a multi file operation. The lock is held on success and free on a refusal. */
  method AdmitPaths(client: VolumeClient, safety: SafetyManager, k: Key, sessionBytes: int, paths: seq<Pair>)
      returns (r: Result<(), Error>)
    requires client.Valid() && !client.locked
    modifies safety`sessions, client`locked
    ensures client.locked == r.Ok?
    ensures r == Verdict(safety.limits, client.projectId, Usage(client.tree), NetChange(client.tree, paths),
                         safety.writeQuotaBytes, Of(old(safety.sessions), k), sessionBytes)
    ensures r.Ok? ==> safety.sessions == old(safety.sessions)[k := Charged(Of(old(safety.sessions), k), sessionBytes)]
    ensures r.Err? ==> forall j :: Of(safety.sessions, j) == Of(old(safety.sessions), j)
  {
    client.locked := true;
    var seen: set<Path> := {};
    var delta := 0;
    var i := |paths|;
    while i > 0
      invariant 0 <= i <= |paths|
      invariant seen == Listed(paths[i..])
      invariant delta == NetChange(client.tree, paths[i..])
    {
      i := i - 1;
      var (path, newSize) := paths[i];
      assert paths[i..][1..] == paths[i + 1..];
      assert paths[i..] == [paths[i]] + paths[i + 1..];
      if path in seen {
        continue;
      }
      seen := seen + {path};
      delta := delta + newSize - SizeAt(client.tree, path);
    }
    assert paths[0..] == paths;
    r := CheckAndCharge(client, safety, k, sessionBytes, delta);
    client.locked := r.Ok?;
  }

  /** Admission of a write of `newSize` bytes to one file. */
  method AdmitFile(client: VolumeClient, safety: SafetyManager, k: Key, path: Path, newSize: nat)
      returns (r: Result<(), Error>)
    requires client.Valid() && !client.locked
    modifies safety`sessions, client`locked
    ensures client.locked == r.Ok?
    ensures r == Verdict(safety.limits, client.projectId, Usage(client.tree),
                         Usage(ApplyOne(client.tree, Put(path, newSize))) - Usage(client.tree),
                         safety.writeQuotaBytes, Of(old(safety.sessions), k), newSize)
    ensures r.Ok? ==> safety.sessions == old(safety.sessions)[k := Charged(Of(old(safety.sessions), k), newSize)]
    ensures r.Err? ==> forall j :: Of(safety.sessions, j) == Of(old(safety.sessions), j)
  {
    client.locked := true;
    var previous := SizeAt(client.tree, path);
    UsageStep(client.tree, Put(path, newSize));
    r := CheckAndCharge(client, safety, k, newSize, newSize - previous);
    client.locked := r.Ok?;
  }

  /** Admission of an optional Markdown companion, charging a separate session weight. */
  method AdmitSibling(client: VolumeClient, safety: SafetyManager, k: Key, md: Option<Path>, mdLen: nat, sessionBytes: int)
      returns (r: Result<(), Error>)
    requires client.Valid() && !client.locked
    modifies safety`sessions, client`locked
    ensures client.locked == r.Ok?
    ensures var after := if md.Some? then ApplyOne(client.tree, Put(md.value, mdLen)) else client.tree;
            r == Verdict(safety.limits, client.projectId, Usage(client.tree), Usage(after) - Usage(client.tree),
                         safety.writeQuotaBytes, Of(old(safety.sessions), k), sessionBytes)
    ensures r.Ok? ==> safety.sessions == old(safety.sessions)[k := Charged(Of(old(safety.sessions), k), sessionBytes)]
    ensures r.Err? ==> forall j :: Of(safety.sessions, j) == Of(old(safety.sessions), j)
  {
    client.locked := true;
    var delta := 0;
    if md.Some? {
      UsageStep(client.tree, Put(md.value, mdLen));
      delta := mdLen - SizeAt(client.tree, md.value);
    }
    r := CheckAndCharge(client, safety, k, sessionBytes, delta);
    client.locked := r.Ok?;
  }

  /** An admitted operation run to its last write: usage moves by exactly the admitted change. */
  method RunAdmitted(client: VolumeClient, changes: seq<Change>)
    requires client.Valid() && client.locked
    modifies client
    ensures client.Valid() && !client.locked
    ensures client.tree == Apply(old(client.tree), changes)
    ensures Usage(client.tree) == Usage(old(client.tree)) + NetChange(old(client.tree), Listing(changes))
  {
    var i := 0;
    while i < |changes|
      invariant 0 <= i <= |changes|
      invariant client.Valid() && client.locked
      invariant Apply(client.tree, changes[i..]) == Apply(old(client.tree), changes)
    {
      assert changes[i..][1..] == changes[i + 1..];
      client.Write(changes[i]);
      i := i + 1;
    }
    NetChangeIsUsageDifference(old(client.tree), changes);
    client.Release();
  }

  /** Storage the project can still grow by, None without a limit; `usage` says whether the usage can be read. */
  method ProjectRemainingFor(client: VolumeClient, safety: SafetyManager, replacedSize: int, usage: bool)
      returns (r: Result<Option<int>, Error>)
    requires client.Valid() && !client.locked
    ensures r == match safety.limits
                 case Unattached => Err(Internal)
                 case Unlimited => Ok(None)
                 case Admin(quotas) =>
                   if client.projectId !in quotas then Err(ProjectNotFound(client.projectId))
                   else if quotas[client.projectId].None? then Ok(None)
                   else if !usage then Err(Internal)
                   else Ok(Some(Max(quotas[client.projectId].value - Usage(client.tree) + replacedSize, 0)))
  {
    var limit := LimitOf(safety.limits, client.projectId);
    if limit.Err? {
      return Err(limit.error);
    }
    if limit.value.None? {
      return Ok(None);
    }
    if !usage {
      return Err(Internal);
    }
    r := Ok(Some(Max(limit.value.value - client.usedBytes + replacedSize, 0)));
  }

  /**
   In one state, a write of `size` bytes over a file of `replaced` bytes passes the project check
   exactly when it fits the remaining storage or does not grow the file.
   */
  lemma RemainingIsExact(quotas: map<string, Option<int>>, project: string, limit: int, used: int, replaced: nat, size: nat)
    requires project in quotas && quotas[project] == Some(limit)
    ensures ProjectCheck(Admin(quotas), project, used, size - replaced).Ok?
      <==> size <= Max(limit - used + replaced, 0) || size <= replaced
  {}

  /** What an operation hands in: each write's path, in order, with the bytes the write leaves there. */
  lemma {:induction false} ListingAt(changes: seq<Change>, i: nat)
    requires i < |changes|
    ensures Listing(changes)[i] == (changes[i].path, if changes[i].Put? then changes[i].size else 0)
    decreases i
  {
    if i > 0 {
      ListingAt(changes[1..], i - 1);
    }
  }

  /**
   An operation of a project with a stored limit is admitted exactly when its last write leaves the usage at or under
   that limit or no higher than before, and its session bytes fit. The project is refused first.
   */
  lemma AdmittedIffFits(t: Tree, changes: seq<Change>, quotas: map<string, Option<int>>, project: string, limit: int, quota: int, s: Session, bytes: int)
    requires project in quotas && quotas[project] == Some(limit)
    ensures var r := Verdict(Admin(quotas), project, Usage(t), NetChange(t, Listing(changes)), quota, s, bytes);
            var after := Usage(Apply(t, changes));
            && (r == Ok(()) <==> after <= Max(limit, Usage(t)) && s.bytesWritten + bytes <= quota)
            && (r == Err(ProjectQuotaExceeded(limit, Usage(t), after - Usage(t))) <==> after > Max(limit, Usage(t)))
            && (r == Err(WriteQuotaExceeded(quota)) <==> after <= Max(limit, Usage(t)) && s.bytesWritten + bytes > quota)
  {
    NetChangeIsUsageDifference(t, changes);
  }

  /** Without a stored limit, and where limits are declared not to apply, only the session can refuse. */
  lemma NoLimitNeverRefuses(t: Tree, changes: seq<Change>, limits: Limits, project: string, quota: int, s: Session, bytes: int)
    requires limits.Unlimited? || (limits.Admin? && project in limits.quotas && limits.quotas[project].None?)
    ensures Verdict(limits, project, Usage(t), NetChange(t, Listing(changes)), quota, s, bytes)
         == if s.bytesWritten + bytes <= quota then Ok(()) else Err(WriteQuotaExceeded(quota))
  {}

  /** A project whose limit cannot be read may write what does not grow it, and nothing else. */
  lemma UnreadableLimitFailsClosed(t: Tree, changes: seq<Change>, limits: Limits, project: string, quota: int, s: Session, bytes: int)
    requires limits.Unattached? || (limits.Admin? && project !in limits.quotas)
    ensures Verdict(limits, project, Usage(t), NetChange(t, Listing(changes)), quota, s, bytes)
         == if Usage(Apply(t, changes)) > Usage(t) then Err(if limits.Admin? then ProjectNotFound(project) else Internal)
            else if s.bytesWritten + bytes <= quota then Ok(()) else Err(WriteQuotaExceeded(quota))
  {
    NetChangeIsUsageDifference(t, changes);
  }
}
