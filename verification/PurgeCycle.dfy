/**
 One purge cycle over every project, and the once a day gate of the orphan sweep over many cycles.

 Times are whole microseconds. A cycle tries every project; a sweep that fails is skipped, and an orphan
 sweep is recorded whether it succeeded or not.
 */
module PurgeCycle {
  import opened Common
  import OrphanSweep

  type Project = string

  datatype Summary = Summary(files: nat, projects: nat, exports: nat, artifacts: nat, blobs: nat, bytes: nat, breakers: nat)

  const EMPTY := Summary(0, 0, 0, 0, 0, 0, 0)

  /** What each sweep of one project answers, None for a failure. */
  datatype Outcome = Outcome(
    id: Project,
    opens: bool,
    files: Option<nat>,
    stamped: Option<bool>,
    exports: Option<nat>,
    artifacts: Option<nat>,
    orphans: Option<OrphanSweep.Sweep>
  )

  datatype Error = ListFailed

  type Times = map<Project, int>

  predicate Due(last: Times, p: Project, now: int) {
    p !in last || now - last[p] >= MICROS_PER_DAY
  }

  function Count(o: Option<nat>): nat {
    if o.Some? then o.value else 0
  }

  /** What one project adds to the summary. */
  function Share(o: Outcome, due: bool): Summary {
    if !o.opens then EMPTY
    else
      var sweep := if due && o.orphans.Some? then o.orphans.value else OrphanSweep.Sweep(0, 0, false);
      Summary(Count(o.files), if o.stamped == Some(true) then 1 else 0, Count(o.exports), Count(o.artifacts),
              sweep.blobs, sweep.bytes, if sweep.breakerTripped then 1 else 0)
  }

  function Add(a: Summary, b: Summary): Summary {
    Summary(a.files + b.files, a.projects + b.projects, a.exports + b.exports, a.artifacts + b.artifacts,
            a.blobs + b.blobs, a.bytes + b.bytes, a.breakers + b.breakers)
  }

  function Tally(outcomes: seq<Outcome>, last: Times, now: int): Summary {
    if outcomes == [] then EMPTY
    else
      var o := outcomes[|outcomes| - 1];
      Add(Tally(outcomes[..|outcomes| - 1], last, now), Share(o, Due(last, o.id, now)))
  }

  /** The projects whose volume opens. */
  function Opened(outcomes: seq<Outcome>): set<Project> {
    set o | o in outcomes && o.opens :: o.id
  }

  /** Every opened project that was due is recorded at `now`, whatever its sweep answered. */
  function AfterCycle(last: Times, reachable: set<Project>, now: int): Times {
    map p | p in last.Keys + reachable && (p in last || p in reachable) ::
      if p in reachable && Due(last, p, now) then now else if p in last then last[p] else now
  }

  predicate DistinctIds(outcomes: seq<Outcome>) {
    forall i, j :: 0 <= i < j < |outcomes| ==> outcomes[i].id != outcomes[j].id
  }

  class StoreManager {
    var orphanSweeps: Times

    constructor ()
      ensures orphanSweeps == map[]
    {
      orphanSweeps := map[];
    }

    method RecordOrphanSweep(p: Project, now: int)
      modifies this`orphanSweeps
      ensures orphanSweeps == old(orphanSweeps)[p := now]
    {
      orphanSweeps := orphanSweeps[p := now];
    }

    /** The sweeps of one opened project, each failure skipped. */
    method SweepOne(now: int, o: Outcome, before: Summary) returns (summary: Summary)
      requires o.opens
      modifies this`orphanSweeps
      ensures summary == Add(before, Share(o, Due(old(orphanSweeps), o.id, now)))
      ensures orphanSweeps == if Due(old(orphanSweeps), o.id, now) then old(orphanSweeps)[o.id := now] else old(orphanSweeps)
      ensures summary.files == before.files + if o.files.Some? then o.files.value else 0
      ensures summary.projects == before.projects + if o.stamped == Some(true) then 1 else 0
      ensures summary.exports == before.exports + if o.exports.Some? then o.exports.value else 0
      ensures summary.artifacts == before.artifacts + if o.artifacts.Some? then o.artifacts.value else 0
      ensures var due := o.id !in old(orphanSweeps) || now - old(orphanSweeps)[o.id] >= 86_400_000_000;
              && summary.blobs == before.blobs + (if due && o.orphans.Some? then o.orphans.value.blobs else 0)
              && summary.bytes == before.bytes + (if due && o.orphans.Some? then o.orphans.value.bytes else 0)
              && summary.breakers == before.breakers + (if due && o.orphans.Some? && o.orphans.value.breakerTripped then 1 else 0)
              && orphanSweeps == if due then old(orphanSweeps)[o.id := now] else old(orphanSweeps)
    {
      summary := before;
      if o.files.Some? {
        summary := summary.(files := summary.files + o.files.value);
      }
      if o.stamped == Some(true) {
        summary := summary.(projects := summary.projects + 1);
      }
      if o.exports.Some? {
        summary := summary.(exports := summary.exports + o.exports.value);
      }
      if o.artifacts.Some? {
        summary := summary.(artifacts := summary.artifacts + o.artifacts.value);
      }
      var due := o.id !in orphanSweeps || now - orphanSweeps[o.id] >= MICROS_PER_DAY;
      if due {
        if o.orphans.Some? {
          summary := summary.(blobs := summary.blobs + o.orphans.value.blobs, bytes := summary.bytes + o.orphans.value.bytes);
          if o.orphans.value.breakerTripped {
            summary := summary.(breakers := summary.breakers + 1);
          }
        }
        RecordOrphanSweep(o.id, now);
      }
      SharesAdd(before, summary, o, due);
    }

    /** `listed` is None when the projects cannot be listed: the cycle then ends before any sweep. */
    method RunCycle(now: int, listed: Option<seq<Outcome>>) returns (r: Result<Summary, Error>)
      requires listed.Some? ==> DistinctIds(listed.value)
      modifies this`orphanSweeps
      ensures r == if listed.None? then Err(ListFailed) else Ok(Tally(listed.value, old(orphanSweeps), now))
      ensures orphanSweeps == if listed.None? then old(orphanSweeps) else AfterCycle(old(orphanSweeps), Opened(listed.value), now)
      ensures listed.Some? ==>
        && (forall o :: o in listed.value && o.opens ==>
              && o.id in orphanSweeps
              && orphanSweeps[o.id] ==
                 if o.id !in old(orphanSweeps) || now - old(orphanSweeps)[o.id] >= 86_400_000_000 then now
                 else old(orphanSweeps)[o.id])
        && (forall p :: (forall o :: o in listed.value && o.opens ==> o.id != p) ==>
              (p in orphanSweeps <==> p in old(orphanSweeps)) && (p in orphanSweeps ==> orphanSweeps[p] == old(orphanSweeps)[p]))
    {
      if listed.None? {
        return Err(ListFailed);
      }
      var summary := SweepAll(now, listed.value);
      r := Ok(summary);
    }

    /** Every listed project in turn; one whose volume does not open is skipped. */
    method SweepAll(now: int, outcomes: seq<Outcome>) returns (summary: Summary)
      requires DistinctIds(outcomes)
      modifies this`orphanSweeps
      ensures summary == Tally(outcomes, old(orphanSweeps), now)
      ensures orphanSweeps == AfterCycle(old(orphanSweeps), Opened(outcomes), now)
    {
      summary := EMPTY;
      ghost var last := orphanSweeps;
      NothingSwept(last, now);
      assert Opened(outcomes[..0]) == {};
      for i := 0 to |outcomes|
        invariant summary == Tally(outcomes[..i], last, now)
        invariant orphanSweeps == AfterCycle(last, Opened(outcomes[..i]), now)
      {
        OneMoreTally(last, outcomes, i, now);
        OneMoreProject(last, outcomes, i, now);
        if !outcomes[i].opens {
          continue;
        }
        summary := SweepOne(now, outcomes[i], summary);
      }
      assert outcomes[..|outcomes|] == outcomes;
    }
  }

  /** A project's share, field by field. */
  lemma SharesAdd(before: Summary, after: Summary, o: Outcome, due: bool)
    requires o.opens
    requires after.files == before.files + Count(o.files) && after.exports == before.exports + Count(o.exports)
    requires after.projects == before.projects + if o.stamped == Some(true) then 1 else 0
    requires after.artifacts == before.artifacts + Count(o.artifacts)
    requires after.blobs == before.blobs + if due && o.orphans.Some? then o.orphans.value.blobs else 0
    requires after.bytes == before.bytes + if due && o.orphans.Some? then o.orphans.value.bytes else 0
    requires after.breakers == before.breakers + if due && o.orphans.Some? && o.orphans.value.breakerTripped then 1 else 0
    ensures after == Add(before, Share(o, due))
  {}

  lemma NothingSwept(last: Times, now: int)
    ensures AfterCycle(last, {}, now) == last
  {}

  lemma TallyAppends(xs: seq<Outcome>, o: Outcome, last: Times, now: int)
    ensures Tally(xs + [o], last, now) == Add(Tally(xs, last, now), Share(o, Due(last, o.id, now)))
  {}

  lemma OneMoreTally(last: Times, outcomes: seq<Outcome>, i: nat, now: int)
    requires i < |outcomes|
    ensures var before := Tally(outcomes[..i], last, now);
            Tally(outcomes[..i + 1], last, now) ==
            if outcomes[i].opens then Add(before, Share(outcomes[i], Due(last, outcomes[i].id, now))) else before
  {
    assert outcomes[..i + 1] == outcomes[..i] + [outcomes[i]];
    TallyAppends(outcomes[..i], outcomes[i], last, now);
    AddAssociates(Tally(outcomes[..i], last, now), EMPTY, EMPTY);
  }

  lemma AddAssociates(a: Summary, b: Summary, c: Summary)
    ensures Add(a, Add(b, c)) == Add(Add(a, b), c) && Add(a, EMPTY) == a
  {}

  lemma OneMoreProject(last: Times, outcomes: seq<Outcome>, i: nat, now: int)
    requires i < |outcomes| && DistinctIds(outcomes)
    ensures var before := AfterCycle(last, Opened(outcomes[..i]), now);
            var after := AfterCycle(last, Opened(outcomes[..i + 1]), now);
            var o := outcomes[i];
            && Due(before, o.id, now) == Due(last, o.id, now)
            && after == if o.opens && Due(last, o.id, now) then before[o.id := now] else before
  {}

  // ---- many cycles of one process

  datatype Cycle = Cycle(now: int, reachable: set<Project>)

  function Recorded(last: Times, cycles: seq<Cycle>): Times {
    if cycles == [] then last
    else
      var c := cycles[|cycles| - 1];
      AfterCycle(Recorded(last, cycles[..|cycles| - 1]), c.reachable, c.now)
  }

  /** The times at which the cycles swept the orphans of `p`, in order. */
  function SweepTimes(p: Project, last: Times, cycles: seq<Cycle>): seq<int> {
    if cycles == [] then []
    else
      var front, c := cycles[..|cycles| - 1], cycles[|cycles| - 1];
      SweepTimes(p, last, front) + if p in c.reachable && Due(Recorded(last, front), p, c.now) then [c.now] else []
  }

  /** The time kept for `p` is its latest sweep, or what was kept before any. */
  lemma {:induction false} RecordedIsTheLatest(p: Project, last: Times, cycles: seq<Cycle>)
    ensures var times := SweepTimes(p, last, cycles);
            var kept := Recorded(last, cycles);
            if times == [] then (p in kept <==> p in last) && (p in last ==> kept[p] == last[p])
            else p in kept && kept[p] == times[|times| - 1]
    ensures forall t :: t in SweepTimes(p, last, cycles) ==> exists c :: c in cycles && c.now == t
    decreases |cycles|
  {
    if cycles != [] {
      var front, c := cycles[..|cycles| - 1], cycles[|cycles| - 1];
      RecordedIsTheLatest(p, last, front);
      assert cycles == front + [c];
      assert forall d :: d in front ==> d in cycles;
      assert c in cycles;
    }
  }

  /** Two recorded orphan sweeps of one project are at least 24 hours apart, failed sweeps included. */
  lemma {:induction false} SweepsAreADayApart(p: Project, last: Times, cycles: seq<Cycle>, i: nat)
    requires i + 1 < |SweepTimes(p, last, cycles)|
    ensures SweepTimes(p, last, cycles)[i + 1] - SweepTimes(p, last, cycles)[i] >= MICROS_PER_DAY
    decreases |cycles|
  {
    var front, c := cycles[..|cycles| - 1], cycles[|cycles| - 1];
    RecordedIsTheLatest(p, last, front);
    if i + 1 < |SweepTimes(p, last, front)| {
      SweepsAreADayApart(p, last, front, i);
    }
  }

  /** Any two of them, not only neighbours. */
  lemma {:induction false} AnyTwoSweepsAreADayApart(p: Project, last: Times, cycles: seq<Cycle>, i: nat, j: nat)
    requires i < j < |SweepTimes(p, last, cycles)|
    ensures SweepTimes(p, last, cycles)[j] - SweepTimes(p, last, cycles)[i] >= 86_400_000_000
    decreases j - i
  {
    SweepsAreADayApart(p, last, cycles, j - 1);
    if i < j - 1 {
      AnyTwoSweepsAreADayApart(p, last, cycles, i, j - 1);
    }
  }

  /** One more cycle adds its own time or nothing. */
  lemma TimesGrow(p: Project, last: Times, front: seq<Cycle>, c: Cycle)
    ensures var earlier, times := SweepTimes(p, last, front), SweepTimes(p, last, front + [c]);
            times == earlier || times == earlier + [c.now]
  {
    var all := front + [c];
    assert all[..|all| - 1] == front && all[|all| - 1] == c;
  }

  lemma CycleRecords(last: Times, c: Cycle, p: Project)
    requires p in c.reachable
    ensures var after := AfterCycle(last, c.reachable, c.now);
            p in after && after[p] == if Due(last, p, c.now) then c.now else last[p]
  {}

  /** The volume of `p` opens in every cycle. */
  ghost predicate AlwaysOpens(p: Project, cycles: seq<Cycle>) {
    forall i :: 0 <= i < |cycles| ==> p in cycles[i].reachable
  }

  ghost predicate AtMostApart(cycles: seq<Cycle>, gap: int) {
    forall i, j :: 0 <= i < j < |cycles| && j == i + 1 ==> cycles[j].now - cycles[i].now <= gap
  }

  /** A project whose volume always opens was swept less than 24 hours before any cycle, first of all in the first one. */
  lemma {:induction false} SweepsAreNotMissed(p: Project, last: Times, cycles: seq<Cycle>)
    requires cycles != [] && p !in last
    requires AlwaysOpens(p, cycles)
    ensures p in Recorded(last, cycles) && cycles[|cycles| - 1].now - Recorded(last, cycles)[p] < 86_400_000_000
    ensures SweepTimes(p, last, cycles) != [] && SweepTimes(p, last, cycles)[0] == cycles[0].now
    decreases |cycles|
  {
    var front, c := cycles[..|cycles| - 1], cycles[|cycles| - 1];
    CycleRecords(Recorded(last, front), c, p);
    if front == [] {
      assert SweepTimes(p, last, front) == [] && Recorded(last, front) == last;
    } else {
      SweepsAreNotMissed(p, last, front);
    }
  }

  lemma FrontIsRegular(p: Project, cycles: seq<Cycle>, gap: nat)
    requires cycles != [] && AlwaysOpens(p, cycles) && AtMostApart(cycles, gap)
    ensures AlwaysOpens(p, cycles[..|cycles| - 1]) && AtMostApart(cycles[..|cycles| - 1], gap)
  {}

  /** When its volume always opens and cycles are at most `gap` apart, its sweeps are less than 24 hours plus `gap` apart. */
  lemma {:induction false} SweepsComeInTime(p: Project, last: Times, cycles: seq<Cycle>, gap: nat, i: nat)
    requires AtMostApart(cycles, gap) && p !in last
    requires AlwaysOpens(p, cycles)
    requires i + 1 < |SweepTimes(p, last, cycles)|
    ensures SweepTimes(p, last, cycles)[i + 1] - SweepTimes(p, last, cycles)[i] < 86_400_000_000 + gap
    decreases |cycles|
  {
    var front, c := cycles[..|cycles| - 1], cycles[|cycles| - 1];
    var earlier := SweepTimes(p, last, front);
    assert cycles == front + [c];
    TimesGrow(p, last, front, c);
    FrontIsRegular(p, cycles, gap);
    if i + 1 < |earlier| {
      SweepsComeInTime(p, last, front, gap, i);
    }
    if earlier != [] {
      LastSweepInTime(p, last, front, c, gap);
    }
    GapsGrow(earlier, SweepTimes(p, last, cycles), c.now, MICROS_PER_DAY + gap, i);
  }

  lemma GapsGrow(earlier: seq<int>, times: seq<int>, now: int, bound: int, i: nat)
    requires times == earlier || times == earlier + [now]
    requires i + 1 < |times|
    requires i + 1 < |earlier| ==> earlier[i + 1] - earlier[i] < bound
    requires earlier != [] ==> now - earlier[|earlier| - 1] < bound
    ensures times[i + 1] - times[i] < bound
  {}

  lemma LastSweepInTime(p: Project, last: Times, front: seq<Cycle>, c: Cycle, gap: nat)
    requires p !in last && AtMostApart(front + [c], gap)
    requires AlwaysOpens(p, front)
    requires SweepTimes(p, last, front) != []
    ensures c.now - SweepTimes(p, last, front)[|SweepTimes(p, last, front)| - 1] < MICROS_PER_DAY + gap
  {
    var all := front + [c];
    SweepsAreNotMissed(p, last, front);
    RecordedIsTheLatest(p, last, front);
    assert all[|front|] == c && all[|front| - 1] == front[|front| - 1];
  }

  lemma {:induction false} TallySplits(a: seq<Outcome>, b: seq<Outcome>, last: Times, now: int)
    ensures Tally(a + b, last, now) == Add(Tally(a, last, now), Tally(b, last, now))
    decreases |b|
  {
    if b == [] {
      assert a + b == a;
      AddAssociates(Tally(a, last, now), EMPTY, EMPTY);
    } else {
      var front, o := b[..|b| - 1], b[|b| - 1];
      assert a + b == (a + front) + [o] && b == front + [o];
      TallyAppends(a + front, o, last, now);
      TallyAppends(front, o, last, now);
      TallySplits(a, front, last, now);
      AddAssociates(Tally(a, last, now), Tally(front, last, now), Share(o, Due(last, o.id, now)));
    }
  }

  /** One project's part of the summary: what each sweep answered, the orphan sweep's only when a day has passed. */
  lemma TallyOfOne(o: Outcome, last: Times, now: int)
    ensures Tally([], last, now) == Summary(0, 0, 0, 0, 0, 0, 0)
    ensures !o.opens ==> Tally([o], last, now) == Summary(0, 0, 0, 0, 0, 0, 0)
    ensures var due := o.id !in last || now - last[o.id] >= 86_400_000_000;
            o.opens && o.files.Some? && o.stamped.Some? && o.exports.Some? && o.artifacts.Some? && o.orphans.Some? ==>
              Tally([o], last, now) ==
              Summary(o.files.value, if o.stamped.value then 1 else 0, o.exports.value, o.artifacts.value,
                      if due then o.orphans.value.blobs else 0, if due then o.orphans.value.bytes else 0,
                      if due && o.orphans.value.breakerTripped then 1 else 0)
  {
    assert [] + [o] == [o];
    TallyAppends([], o, last, now);
    NothingBefore(Share(o, Due(last, o.id, now)));
  }

  lemma NothingBefore(s: Summary)
    ensures Add(EMPTY, s) == s
  {
  }

  /** A project whose volume cannot be opened adds nothing to the summary and takes nothing from the others. */
  lemma FailuresAreIsolated(before: seq<Outcome>, o: Outcome, after: seq<Outcome>, last: Times, now: int)
    requires !o.opens
    ensures Tally(before + [o] + after, last, now) == Tally(before + after, last, now)
  {
    TallySplits(before + [o], after, last, now);
    TallySplits(before, after, last, now);
    TallyAppends(before, o, last, now);
    AddAssociates(Tally(before, last, now), EMPTY, EMPTY);
  }
}
