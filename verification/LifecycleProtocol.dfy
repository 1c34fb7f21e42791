/**
 Both purge sweeps of one project, any number of each, racing file accesses and undeletes.

 A project sweep decides on the tree it read and stamps afterwards; a grace sweep approves from the list it
 read and removes afterwards. The clock never goes back.
 */
module LifecycleProtocol {
  import opened Common
  import opened ProjectLifecycle

  type Worker = nat

  /** A project sweep that read `nodes` and found the project stale. */
  datatype Decision = Decision(now: int, nodes: seq<Node>, config: PurgeConfig)

  /** A grace sweep that read the stamp `at` and found it old enough. */
  datatype Approval = Approval(now: int, at: int)

  datatype Status =
    | Live
    | Stamped(at: int, why: Decision)
    | Removed(at: int, why: Decision, when: int)
    /** Removed without having been stamped, or before its grace period was over. */
    | RemovedEarly

  datatype State = State(
    clock: int,
    created: int,
    nodes: seq<Node>,
    status: Status,
    decided: map<Worker, Decision>,
    approved: map<Worker, Approval>
  )

  datatype Step =
    | Tick(to: int)
    | Touch(nodes: seq<Node>)
    | Decide(x: Worker, now: int, config: PurgeConfig)
    | Stamp(x: Worker)
    | GiveUp(x: Worker)
    | Approve(x: Worker, now: int)
    | Remove(x: Worker)
    | Undelete

  predicate Enabled(s: State, graceDays: nat, step: Step) {
    match step
    case Tick(to) => to >= s.clock
    case Touch(nodes) => true
    case Decide(x, now, config) => now <= s.clock && Decides(now, s.created, s.nodes, config)
    case Stamp(x) => x in s.decided
    case GiveUp(x) => true
    case Approve(x, now) => now <= s.clock && s.status.Stamped? && Older(now - s.status.at, graceDays)
    case Remove(x) => x in s.approved && !s.status.Removed? && !s.status.RemovedEarly?
    case Undelete => s.status.Stamped?
  }

  function Next(s: State, graceDays: nat, step: Step): State
    requires Enabled(s, graceDays, step)
  {
    match step
    case Tick(to) => s.(clock := to)
    case Touch(nodes) => s.(nodes := nodes)
    case Decide(x, now, config) => s.(decided := s.decided[x := Decision(now, s.nodes, config)])
    case Stamp(x) =>
      s.(status := if s.status.Live? then Stamped(s.clock, s.decided[x]) else s.status, decided := s.decided - {x})
    case GiveUp(x) => s.(decided := s.decided - {x}, approved := s.approved - {x})
    case Approve(x, now) => s.(approved := s.approved[x := Approval(now, s.status.at)])
    case Remove(x) =>
      s.(approved := s.approved - {x},
         status := if s.status.Stamped? && s.clock - s.status.at > graceDays * MICROS_PER_DAY
                   then Removed(s.status.at, s.status.why, s.clock) else RemovedEarly)
    case Undelete => s.(status := Live)
  }

  predicate Runs(s: State, graceDays: nat, steps: seq<Step>, calm: (State, Step) -> bool)
    decreases |steps|
  {
    steps == [] ||
    (Enabled(s, graceDays, steps[0]) && calm(s, steps[0]) && Runs(Next(s, graceDays, steps[0]), graceDays, steps[1..], calm))
  }

  function Final(s: State, graceDays: nat, steps: seq<Step>, calm: (State, Step) -> bool): State
    requires Runs(s, graceDays, steps, calm)
    decreases |steps|
  {
    if steps == [] then s else Final(Next(s, graceDays, steps[0]), graceDays, steps[1..], calm)
  }

  /** No undelete lands between a grace sweep's list and its removal, no access between a project sweep's read and its stamp. */
  predicate Calm(s: State, step: Step) {
    && (step.Undelete? ==> s.approved == map[])
    && (step.Touch? ==> s.decided == map[])
  }

  predicate Initial(s: State) {
    s.status.Live? && s.decided == map[] && s.approved == map[]
  }

  /** The decision behind a stamp taken at `at`: on the tree as it then was, everything was past retention. */
  predicate Justified(created: int, d: Decision, at: int) {
    && d.now <= at
    && d.config.projectRetentionDays.Some?
    && AllOlder(d.now, created, d.nodes, d.config.projectRetentionDays.value)
  }

  ghost predicate Inv(s: State, graceDays: nat) {
    && (forall x :: x in s.decided ==> Justified(s.created, s.decided[x], s.clock) && s.decided[x].nodes == s.nodes)
    && (forall x :: x in s.approved ==> s.approved[x].now <= s.clock && s.approved[x].now - s.approved[x].at > graceDays * MICROS_PER_DAY)
    && (s.status.Stamped? ==> s.status.at <= s.clock && Justified(s.created, s.status.why, s.status.at))
    && (s.approved != map[] && s.status.Stamped? ==> forall x :: x in s.approved ==> s.approved[x].at == s.status.at)
    && (s.approved != map[] ==> !s.status.Live?)
    && (s.status.Removed? ==>
          Justified(s.created, s.status.why, s.status.at) && s.status.when - s.status.at > graceDays * MICROS_PER_DAY)
    && !s.status.RemovedEarly?
  }

  lemma StepKeepsInv(s: State, graceDays: nat, step: Step)
    requires Inv(s, graceDays) && Enabled(s, graceDays, step) && Calm(s, step)
    ensures Inv(Next(s, graceDays, step), graceDays)
  {
    match step
    case Decide(_, now, config) => DecidedMeansAllOlder(now, s.created, s.nodes, config);
    case Approve(_, now) => OlderIsStrict(now - s.status.at, graceDays);
    case Remove(x) => assert s.approved[x].at == s.status.at;
    case _ =>
  }

  lemma {:induction false} RunKeepsInv(s: State, graceDays: nat, steps: seq<Step>)
    requires Inv(s, graceDays) && Runs(s, graceDays, steps, Calm)
    ensures Inv(Final(s, graceDays, steps, Calm), graceDays)
    decreases |steps|
  {
    if steps != [] {
      StepKeepsInv(s, graceDays, steps[0]);
      RunKeepsInv(Next(s, graceDays, steps[0]), graceDays, steps[1..]);
    }
  }

  /**
   Over every calm run a project is removed only after a stamp taken when its creation and every live file
   access were past the retention period, and strictly longer after that stamp than the grace period.
   */
  lemma RemovalWasEarned(start: State, graceDays: nat, steps: seq<Step>)
    requires Initial(start) && Runs(start, graceDays, steps, Calm)
    ensures var end := Final(start, graceDays, steps, Calm).status;
            && !end.RemovedEarly?
            && (end.Removed? ==>
                  && end.when - end.at > graceDays * 86_400_000_000 && end.why.now <= end.at
                  && end.why.config.projectRetentionDays.Some?
                  && var retention := end.why.config.projectRetentionDays.value * 86_400_000_000;
                     && end.why.now - start.created > retention
                     && forall n :: n in end.why.nodes && n.isFile && !n.inTrash ==> end.why.now - n.atime > retention)
  {
    RunKeepsInv(start, graceDays, steps);
    CreationStays(start, graceDays, steps);
  }

  /** A calm run that removes a project created at 0, used two days later, kept for one day and then for one day's grace. */
  lemma AQuietProjectIsRemoved()
    ensures var config := PurgeConfig(true, true, None, Some(1));
            var used := [Node("/a", true, false, 172_800_000_000), Node("/.trash/b", true, true, 300_000_000_000)];
            var start := State(172_800_000_000, 0, [], Live, map[], map[]);
            var steps := [Touch(used), Tick(259_200_500_000), Decide(1, 259_200_500_000, config), Stamp(1),
                          Tick(345_601_000_000), Approve(2, 345_601_000_000), Remove(2)];
            && Initial(start) && Runs(start, 1, steps, Calm)
            && Final(start, 1, steps, Calm).status.Removed?
  {
    var config := PurgeConfig(true, true, None, Some(1));
    var used := [Node("/a", true, false, 172_800_000_000), Node("/.trash/b", true, true, 300_000_000_000)];
    var s := State(172_800_000_000, 0, [], Live, map[], map[]);
    var ticked := s.(nodes := used, clock := 259_200_500_000);
    DecidesInPlainTerms(259_200_500_000, 0, used, config);
    OlderIsStrict(86_400_500_000, 1);
    var decided := Next(ticked, 1, Decide(1, 259_200_500_000, config));
    var stamped := Next(decided, 1, Stamp(1));
    var later := Next(stamped, 1, Tick(345_601_000_000));
    var approved := Next(later, 1, Approve(2, 345_601_000_000));
    OneStep(approved, 1, Remove(2), []);
    OneStep(later, 1, Approve(2, 345_601_000_000), [Remove(2)]);
    OneStep(stamped, 1, Tick(345_601_000_000), [Approve(2, 345_601_000_000), Remove(2)]);
    OneStep(decided, 1, Stamp(1), [Tick(345_601_000_000), Approve(2, 345_601_000_000), Remove(2)]);
    OneStep(ticked, 1, Decide(1, 259_200_500_000, config), [Stamp(1), Tick(345_601_000_000), Approve(2, 345_601_000_000), Remove(2)]);
    OneStep(s.(nodes := used), 1, Tick(259_200_500_000),
            [Decide(1, 259_200_500_000, config), Stamp(1), Tick(345_601_000_000), Approve(2, 345_601_000_000), Remove(2)]);
    OneStep(s, 1, Touch(used),
            [Tick(259_200_500_000), Decide(1, 259_200_500_000, config), Stamp(1), Tick(345_601_000_000),
             Approve(2, 345_601_000_000), Remove(2)]);
  }

  lemma OneStep(s: State, graceDays: nat, step: Step, rest: seq<Step>)
    requires Enabled(s, graceDays, step) && Calm(s, step) && Runs(Next(s, graceDays, step), graceDays, rest, Calm)
    ensures Runs(s, graceDays, [step] + rest, Calm)
    ensures Final(s, graceDays, [step] + rest, Calm) == Final(Next(s, graceDays, step), graceDays, rest, Calm)
  {
    assert ([step] + rest)[1..] == rest;
  }

  lemma {:induction false} CreationStays(s: State, graceDays: nat, steps: seq<Step>)
    requires Runs(s, graceDays, steps, Calm)
    ensures Final(s, graceDays, steps, Calm).created == s.created
    decreases |steps|
  {
    if steps != [] {
      CreationStays(Next(s, graceDays, steps[0]), graceDays, steps[1..]);
    }
  }

  /** At the instant of a stamp, the tree itself holds nothing accessed within the retention period. */
  lemma StampSeesACurrentTree(start: State, graceDays: nat, steps: seq<Step>, x: Worker)
    requires Initial(start) && Runs(start, graceDays, steps, Calm)
    requires var s := Final(start, graceDays, steps, Calm); x in s.decided && s.status.Live?
    ensures var s := Final(start, graceDays, steps, Calm);
            var days := s.decided[x].config.projectRetentionDays;
            && days.Some? && AllOlder(s.clock, start.created, s.nodes, days.value)
            && s.clock - start.created > days.value * 86_400_000_000
            && (forall n :: n in s.nodes && n.isFile && !n.inTrash ==> s.clock - n.atime > days.value * 86_400_000_000)
            && Next(s, graceDays, Stamp(x)).status == Stamped(s.clock, s.decided[x])
  {
    RunKeepsInv(start, graceDays, steps);
    CreationStays(start, graceDays, steps);
  }

  /** Whatever calm steps follow, a pending stamp only ever meets a tree past its retention. */
  ghost predicate StampsStayCurrent(s: State, graceDays: nat) {
    forall steps: seq<Step>, x: Worker :: Runs(s, graceDays, steps, Calm) ==>
      StampIsCurrent(Final(s, graceDays, steps, Calm), x)
  }

  predicate StampIsCurrent(s: State, x: Worker) {
    x in s.decided && s.status.Live? ==>
      var days := s.decided[x].config.projectRetentionDays;
      days.Some? && AllOlder(s.clock, s.created, s.nodes, days.value)
  }

  /**
   An access to a file of a live project is honoured in every continuation if and only if no project sweep is
   between its read and its stamp: one that is will stamp the project just used.
   */
  lemma AccessHonouredIffNoSweepDecided(start: State, graceDays: nat, steps: seq<Step>, nodes: seq<Node>, accessed: Node)
    requires Initial(start) && Runs(start, graceDays, steps, Calm)
    requires var s := Final(start, graceDays, steps, Calm);
             s.status.Live? && accessed in nodes && accessed.isFile && !accessed.inTrash && accessed.atime == s.clock
    ensures var s := Final(start, graceDays, steps, Calm);
            StampsStayCurrent(Next(s, graceDays, Touch(nodes)), graceDays) <==> s.decided == map[]
  {
    var s := Final(start, graceDays, steps, Calm);
    var touched := Next(s, graceDays, Touch(nodes));
    RunKeepsInv(start, graceDays, steps);
    if s.decided == map[] {
      StepKeepsInv(s, graceDays, Touch(nodes));
      forall more: seq<Step>, x: Worker | Runs(touched, graceDays, more, Calm)
        ensures StampIsCurrent(Final(touched, graceDays, more, Calm), x)
      {
        RunKeepsInv(touched, graceDays, more);
      }
    } else {
      var x :| x in s.decided;
      assert Runs(touched, graceDays, [], Calm) && Final(touched, graceDays, [], Calm) == touched;
      assert !StampIsCurrent(touched, x);
    }
  }

  /**
   A stamp never moves: over any steps without an undelete a stamped project stays stamped at the same
   instant, whatever sweeps trigger again, until a removal ends it.
   */
  lemma {:induction false} StampNeverMoves(s: State, graceDays: nat, steps: seq<Step>, calm: (State, Step) -> bool)
    requires s.status.Stamped? && Runs(s, graceDays, steps, calm)
    requires forall step :: step in steps ==> !step.Undelete?
    ensures var end := Final(s, graceDays, steps, calm).status;
            end == s.status || end.RemovedEarly? || (end.Removed? && end.at == s.status.at && end.why == s.status.why)
    decreases |steps|
  {
    if steps != [] {
      assert steps[0] in steps;
      var next := Next(s, graceDays, steps[0]);
      if next.status.Stamped? {
        StampNeverMoves(next, graceDays, steps[1..], calm);
      } else {
        RemovedStaysRemoved(next, graceDays, steps[1..], calm);
      }
    }
  }

  lemma {:induction false} RemovedStaysRemoved(s: State, graceDays: nat, steps: seq<Step>, calm: (State, Step) -> bool)
    requires (s.status.Removed? || s.status.RemovedEarly?) && Runs(s, graceDays, steps, calm)
    ensures Final(s, graceDays, steps, calm).status == s.status
    decreases |steps|
  {
    if steps != [] {
      RemovedStaysRemoved(Next(s, graceDays, steps[0]), graceDays, steps[1..], calm);
    }
  }

  ghost predicate NeverEarly(s: State, graceDays: nat) {
    forall steps: seq<Step> :: Runs(s, graceDays, steps, Calm) ==> !Final(s, graceDays, steps, Calm).status.RemovedEarly?
  }

  /**
   An undelete is honoured in every continuation if and only if no grace sweep is between its list and its
   removal of this project: one that is will remove the live project.
   */
  lemma UndeleteHonouredIffNoSweepApproved(start: State, graceDays: nat, steps: seq<Step>)
    requires Initial(start) && Runs(start, graceDays, steps, Calm)
    requires Final(start, graceDays, steps, Calm).status.Stamped?
    ensures var s := Final(start, graceDays, steps, Calm);
            NeverEarly(Next(s, graceDays, Undelete), graceDays) <==> s.approved == map[]
  {
    var s := Final(start, graceDays, steps, Calm);
    var live := Next(s, graceDays, Undelete);
    RunKeepsInv(start, graceDays, steps);
    if s.approved == map[] {
      StepKeepsInv(s, graceDays, Undelete);
      forall more: seq<Step> | Runs(live, graceDays, more, Calm)
        ensures !Final(live, graceDays, more, Calm).status.RemovedEarly?
      {
        RunKeepsInv(live, graceDays, more);
      }
    } else {
      var x :| x in s.approved;
      var gone := Next(live, graceDays, Remove(x));
      assert Runs(gone, graceDays, [], Calm);
      assert [Remove(x)][1..] == [];
      assert Final(live, graceDays, [Remove(x)], Calm) == Final(gone, graceDays, [], Calm);
    }
  }
}
