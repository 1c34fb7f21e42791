/**
 A project's way from live to stamped deleted to permanently removed.

 Instants are whole microseconds. Both sweeps first read, then act: the project sweep reads the tree and
 stamps later, the grace sweep lists the stamped projects and removes them one after another. File access
 and undelete may fall in between.
 */
module ProjectLifecycle {
  import opened Common

  datatype Node = Node(path: string, isFile: bool, inTrash: bool, atime: int)

  /** Rounding to the nearest second, halves away from zero. */
  function RoundSeconds(micros: int): int {
    if micros >= 0 then (micros + 500_000) / MICROS_PER_SECOND
    else -((500_000 - micros) / MICROS_PER_SECOND)
  }

  /** The latest of the creation and of every access to a live file. */
  function Reference(created: int, nodes: seq<Node>): int {
    if nodes == [] then created
    else
      var rest, n := Reference(created, nodes[..|nodes| - 1]), nodes[|nodes| - 1];
      if n.isFile && !n.inTrash then Max(rest, n.atime) else rest
  }

  /** The test both sweeps apply to an age: strictly more than `days` once rounded. */
  predicate Older(age: int, days: nat) {
    RoundSeconds(age) > days * SECONDS_PER_DAY
  }

  /** Rounding never lets an age through at the exact threshold: half a second more is needed. */
  lemma OlderIsStrict(age: int, days: nat)
    ensures Older(age, days) <==> age >= days * 86_400_000_000 + 500_000
    ensures Older(age, days) ==> age > days * MICROS_PER_DAY
    ensures !Older(days * MICROS_PER_DAY, days)
  {}

  /** Creation and every live file access lie further back than `days` before `now`. */
  predicate AllOlder(now: int, created: int, nodes: seq<Node>, days: nat) {
    && now - created > days * MICROS_PER_DAY
    && forall n :: n in nodes && n.isFile && !n.inTrash ==> now - n.atime > days * MICROS_PER_DAY
  }

  /** The reference is the latest of those times, and one of them. */
  lemma {:induction false} ReferenceBounds(created: int, nodes: seq<Node>)
    ensures Reference(created, nodes) >= created
    ensures forall n :: n in nodes && n.isFile && !n.inTrash ==> n.atime <= Reference(created, nodes)
    ensures Reference(created, nodes) == created
      || exists n :: n in nodes && n.isFile && !n.inTrash && n.atime == Reference(created, nodes)
    decreases |nodes|
  {
    if nodes != [] {
      var front, last := nodes[..|nodes| - 1], nodes[|nodes| - 1];
      ReferenceBounds(created, front);
      assert nodes == front + [last];
    }
  }

  predicate Gated(config: PurgeConfig) {
    config.autopurgeEnabled && config.useInternalPurge && config.projectRetentionDays.Some?
  }

  predicate Decides(now: int, created: int, nodes: seq<Node>, config: PurgeConfig) {
    Gated(config) && Older(now - Reference(created, nodes), config.projectRetentionDays.value)
  }

  /** A project the sweep decides on had no creation and no live file access within its retention. */
  lemma DecidedMeansAllOlder(now: int, created: int, nodes: seq<Node>, config: PurgeConfig)
    requires Decides(now, created, nodes, config)
    ensures AllOlder(now, created, nodes, config.projectRetentionDays.value)
  {
    ReferenceBounds(created, nodes);
    OlderIsStrict(now - Reference(created, nodes), config.projectRetentionDays.value);
  }

  /**
   Both ways and in plain terms: the sweep decides exactly when purging is on, a retention is set, and the creation and
   every access to a live file lie that many days and half a second back; files in the trash and directories never count.
   */
  lemma DecidesInPlainTerms(now: int, created: int, nodes: seq<Node>, config: PurgeConfig)
    ensures Decides(now, created, nodes, config) <==>
      && config.autopurgeEnabled && config.useInternalPurge && config.projectRetentionDays.Some?
      && now - created >= config.projectRetentionDays.value * 86_400_000_000 + 500_000
      && forall n :: n in nodes && n.isFile && !n.inTrash ==>
           now - n.atime >= config.projectRetentionDays.value * 86_400_000_000 + 500_000
  {
    ReferenceBounds(created, nodes);
    if config.projectRetentionDays.Some? {
      OlderIsStrict(now - Reference(created, nodes), config.projectRetentionDays.value);
    }
  }

  // ---- the two sweeps as they run

  datatype Record = Record(created: Option<int>, deletedAt: Option<int>)

  datatype Error = Unreadable | NotWritten | BadTimestamp | RemovalFailed(project: string)

  class AdminStore {
    var projects: map<string, Record>

    constructor (projects: map<string, Record>)
      ensures this.projects == projects
    {
      this.projects := projects;
    }

    /** The conditional update: an already stamped project keeps its stamp. */
    method SoftDeleteProject(id: string, stamp: int) returns (hit: bool)
      modifies this`projects
      ensures hit <==> id in old(projects) && old(projects)[id].deletedAt.None?
      ensures projects == if hit then old(projects)[id := old(projects)[id].(deletedAt := Some(stamp))] else old(projects)
    {
      hit := id in projects && projects[id].deletedAt.None?;
      if hit {
        projects := projects[id := projects[id].(deletedAt := Some(stamp))];
      }
    }

    /**
     `config` and `nodes` are what the store answered, None when the read failed; `record` says whether the project
     could be read, `update` whether the stamp could be written; `stamp` is the clock at the update.
     */
    method SweepProject(now: int, stamp: int, id: string, config: Option<PurgeConfig>, record: bool, nodes: Option<seq<Node>>,
                        update: bool)
        returns (r: Result<bool, Error>)
      modifies this`projects
      ensures r == Ok(true) <==>
        && config.Some? && record && nodes.Some? && update && id in old(projects) && old(projects)[id].deletedAt.None?
        && old(projects)[id].created.Some? && Decides(now, old(projects)[id].created.value, nodes.value, config.value)
      ensures config.None? || (Gated(config.value) && !record) ==> r == Err(Unreadable)
      ensures config.Some? && Gated(config.value) && record && id in old(projects) ==>
        if nodes.None? then r == Err(Unreadable)
        else if old(projects)[id].created.None? then r == Err(BadTimestamp)
        else r.Err? <==> !update && Decides(now, old(projects)[id].created.value, nodes.value, config.value)
      ensures r == Ok(true) ==>
        AllOlder(now, old(projects)[id].created.value, nodes.value, config.value.projectRetentionDays.value)
      ensures projects == if r == Ok(true) then old(projects)[id := old(projects)[id].(deletedAt := Some(stamp))] else old(projects)
    {
      if config.None? {
        return Err(Unreadable);
      }
      if !config.value.autopurgeEnabled || !config.value.useInternalPurge || config.value.projectRetentionDays.None? {
        return Ok(false);
      }
      if !record {
        return Err(Unreadable);
      }
      if id !in projects {
        return Ok(false);
      }
      if nodes.None? {
        return Err(Unreadable);
      }
      if projects[id].created.None? {
        return Err(BadTimestamp);
      }
      var reference := Reference(projects[id].created.value, nodes.value);
      var age := RoundSeconds(now - reference);
      if age > config.value.projectRetentionDays.value * SECONDS_PER_DAY {
        DecidedMeansAllOlder(now, projects[id].created.value, nodes.value, config.value);
        if !update {
          return Err(NotWritten);
        }
        var hit := SoftDeleteProject(id, stamp);
        return Ok(hit);
      }
      r := Ok(false);
    }

    /** `listed` is the list of stamped projects read at the start, None when it cannot be read. */
    method SweepGracePeriod(now: int, graceDays: nat, listed: Option<seq<(string, Option<int>)>>, failing: set<string>)
        returns (r: Result<nat, Error>, ghost reached: nat)
      modifies this`projects
      ensures listed.None? ==> r == Err(Unreadable) && projects == old(projects)
      ensures listed.Some? ==>
        && reached <= |listed.value|
        && projects == old(projects) - Ids(Due(now, graceDays, listed.value[..reached]))
        && (r.Ok? <==> reached == |listed.value|)
        && (r.Ok? ==> r.value == |Due(now, graceDays, listed.value)|)
        && (forall i :: 0 <= i < reached ==> !EndsSweep(now, graceDays, failing, listed.value[i]))
        && (r.Err? ==> EndsSweep(now, graceDays, failing, listed.value[reached]))
      ensures forall id :: id in projects ==> id in old(projects) && projects[id] == old(projects)[id]
      ensures forall id :: id in old(projects) && id !in projects ==>
        && listed.Some? && id !in failing
        && exists i :: 0 <= i < |listed.value| && listed.value[i].0 == id && listed.value[i].1.Some?
             && now - listed.value[i].1.value >= graceDays * 86_400_000_000 + 500_000
      ensures r.Ok? ==> forall i :: 0 <= i < |listed.value| ==>
        && listed.value[i].1.Some?
        && (now - listed.value[i].1.value >= graceDays * 86_400_000_000 + 500_000 ==> listed.value[i].0 !in projects)
    {
      if listed.None? {
        return Err(Unreadable), 0;
      }
      ghost var was := projects;
      r, reached := RemoveDue(now, graceDays, listed.value, failing);
      assert listed.value[..|listed.value|] == listed.value;
      RemovedWasDue(now, graceDays, listed.value, failing, was, projects, reached);
    }

    /** Each stamped project with its stamp, None for one that does not parse. A removal that fails ends the sweep. */
    method RemoveDue(now: int, graceDays: nat, listed: seq<(string, Option<int>)>, failing: set<string>)
        returns (r: Result<nat, Error>, ghost reached: nat)
      modifies this`projects
      ensures reached <= |listed|
      ensures r.Ok? ==> reached == |listed| && r.value == |Due(now, graceDays, listed)|
      ensures projects == old(projects) - Ids(Due(now, graceDays, listed[..reached]))
      ensures r.Err? ==> reached < |listed| && EndsSweep(now, graceDays, failing, listed[reached])
      ensures forall i :: 0 <= i < reached ==> !EndsSweep(now, graceDays, failing, listed[i])
    {
      var removed := 0;
      reached := 0;
      assert projects - Ids(Due(now, graceDays, listed[..0])) == projects;
      for i := 0 to |listed|
        invariant reached == i && removed == |Due(now, graceDays, listed[..i])|
        invariant projects == old(projects) - Ids(Due(now, graceDays, listed[..i]))
        invariant forall k :: 0 <= k < i ==> !EndsSweep(now, graceDays, failing, listed[k])
      {
        var (id, stamp) := listed[i];
        DueAppends(now, graceDays, listed, i, old(projects));
        if stamp.None? {
          return Err(BadTimestamp), i;
        }
        var age := RoundSeconds(now - stamp.value);
        if age <= graceDays * SECONDS_PER_DAY {
          reached := i + 1;
          continue;
        }
        if id in failing {
          return Err(RemovalFailed(id)), i;
        }
        projects := projects - {id};
        removed := removed + 1;
        reached := i + 1;
      }
      assert listed[..|listed|] == listed;
      r := Ok(removed);
    }
  }

  /** A stamp that does not parse, or a due project whose removal fails. */
  predicate EndsSweep(now: int, graceDays: nat, failing: set<string>, x: (string, Option<int>)) {
    x.1.None? || (x.0 in failing && Older(now - x.1.value, graceDays))
  }

  predicate IsDue(now: int, graceDays: nat, x: (string, Option<int>)) {
    x.1.Some? && Older(now - x.1.value, graceDays)
  }

  /** The listed projects stamped strictly longer ago than the grace period. */
  function Due(now: int, graceDays: nat, listed: seq<(string, Option<int>)>): seq<(string, Option<int>)> {
    Filter(listed, x => IsDue(now, graceDays, x))
  }

  function Ids(listed: seq<(string, Option<int>)>): set<string> {
    set x | x in listed :: x.0
  }

  /** What a sweep removed was listed with a stamp older than the grace period, and all of that went. */
  lemma RemovedWasDue(now: int, graceDays: nat, listed: seq<(string, Option<int>)>, failing: set<string>,
                      was: map<string, Record>, projects: map<string, Record>, reached: nat)
    requires reached <= |listed| && projects == was - Ids(Due(now, graceDays, listed[..reached]))
    requires forall i :: 0 <= i < reached ==> !EndsSweep(now, graceDays, failing, listed[i])
    ensures forall id :: id in was && id !in projects ==>
      && id !in failing
      && exists i :: 0 <= i < |listed| && listed[i].0 == id && listed[i].1.Some?
           && now - listed[i].1.value >= graceDays * 86_400_000_000 + 500_000
    ensures forall i :: 0 <= i < reached ==>
      && listed[i].1.Some?
      && (now - listed[i].1.value >= graceDays * 86_400_000_000 + 500_000 ==> listed[i].0 !in projects)
  {
    forall age: int ensures Older(age, graceDays) <==> age >= graceDays * 86_400_000_000 + 500_000 {
      OlderIsStrict(age, graceDays);
    }
    forall id | id in was && id !in projects
      ensures id !in failing
      ensures exists i ::
        && 0 <= i < |listed| && listed[i].0 == id && listed[i].1.Some?
        && now - listed[i].1.value >= graceDays * 86_400_000_000 + 500_000
    {
      var x :| x in Due(now, graceDays, listed[..reached]) && x.0 == id;
      var i :| 0 <= i < reached && listed[..reached][i] == x;
      assert listed[i] == x;
    }
    forall i | 0 <= i < reached && now - listed[i].1.value >= graceDays * 86_400_000_000 + 500_000 ensures listed[i].0 !in projects {
      assert listed[..reached][i] == listed[i];
      assert listed[i] in Due(now, graceDays, listed[..reached]);
    }
  }

  lemma DueAppends(now: int, graceDays: nat, listed: seq<(string, Option<int>)>, i: nat, projects: map<string, Record>)
    requires i < |listed|
    ensures var before, after := Due(now, graceDays, listed[..i]), Due(now, graceDays, listed[..i + 1]);
            if IsDue(now, graceDays, listed[i])
            then |after| == |before| + 1 && projects - Ids(after) == (projects - Ids(before)) - {listed[i].0}
            else after == before
  {
    var before, after := Due(now, graceDays, listed[..i]), Due(now, graceDays, listed[..i + 1]);
    assert listed[..i + 1] == listed[..i] + [listed[i]];
    FilterAppends(listed[..i], listed[i], x => IsDue(now, graceDays, x));
    if IsDue(now, graceDays, listed[i]) {
      assert forall x :: x in after <==> x in before || x == listed[i];
      assert Ids(after) == Ids(before) + {listed[i].0};
    }
  }
}
