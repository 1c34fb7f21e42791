/**
 Any number of downloads, reaps and export sweeps racing over the one row of one token.

 Every request reads the clock once, probes the projects one by one to claim the row, and reaps only after
 every probe answered no. A sweep lists the expired row and deletes it later.
 */
module ExportProtocol {
  import opened Common
  import opened Exports

  type Worker = nat

  datatype Process =
    | Probing(now: int, next: nat, failed: bool)
    | Reaping(now: int, next: nat)
    | Sweeping(now: int)
    | Done

  /** One delete of the row: who named which volume, at which instant, and the row's expiry. */
  datatype Taken =
    | Claimed(volume: Project, now: int, row: Row)
    | Dropped(now: int, row: Row)

  datatype State = State(
    clock: int,
    shared: bool,
    projects: seq<Project>,
    minted: bool,
    row: Option<Row>,
    processes: map<Worker, Process>,
    taken: seq<Taken>
  )

  datatype Step =
    | Tick(to: int)
    | Mint(row: Row)
    | Begin(x: Worker)
    | Probe(x: Worker, fails: bool)
    | EndProbes(x: Worker)
    | Reap(x: Worker, fails: bool)
    | List(x: Worker, volume: Project)
    | SweepRow(x: Worker, fails: bool)

  predicate Enabled(s: State, step: Step) {
    match step
    case Tick(to) => to >= s.clock
    case Mint(row) => !s.minted && row.volume in s.projects
    case Begin(x) => x !in s.processes
    case Probe(x, _) => x in s.processes && s.processes[x].Probing? && s.processes[x].next < |s.projects|
    case EndProbes(x) => x in s.processes && s.processes[x].Probing? && s.processes[x].next >= |s.projects|
    case Reap(x, _) => x in s.processes && s.processes[x].Reaping? && s.processes[x].next < |s.projects|
    case List(x, volume) =>
      x !in s.processes && s.row.Some? && s.row.value.volume == volume && s.row.value.expiresAt <= s.clock
    case SweepRow(x, _) => x in s.processes && s.processes[x].Sweeping?
  }

  predicate Reaches(s: State, i: nat)
    requires i < |s.projects|
  {
    s.row.Some? && Visible(s.shared, s.row.value, s.projects[i])
  }

  function Next(s: State, step: Step): State
    requires Enabled(s, step)
  {
    match step
    case Tick(to) => s.(clock := to)
    case Mint(row) => s.(minted := true, row := Some(row))
    case Begin(x) => s.(processes := s.processes[x := Probing(s.clock, 0, false)])
    case Probe(x, fails) =>
      var p := s.processes[x];
      if !fails && Reaches(s, p.next) && Outlives(s.row.value, At(p.now)) then
        s.(row := None, processes := s.processes[x := Done],
           taken := s.taken + [Claimed(s.projects[p.next], p.now, s.row.value)])
      else s.(processes := s.processes[x := Probing(p.now, p.next + 1, p.failed || fails)])
    case EndProbes(x) =>
      var p := s.processes[x];
      s.(processes := s.processes[x := if p.failed then Done else Reaping(p.now, 0)])
    case Reap(x, fails) =>
      var p := s.processes[x];
      if !fails && Reaches(s, p.next) then
        s.(row := None, processes := s.processes[x := Done], taken := s.taken + [Dropped(p.now, s.row.value)])
      else s.(processes := s.processes[x := Reaping(p.now, p.next + 1)])
    case List(x, volume) => s.(processes := s.processes[x := Sweeping(s.clock)])
    case SweepRow(x, fails) =>
      var p := s.processes[x];
      if !fails && s.row.Some?
      then s.(row := None, processes := s.processes[x := Done], taken := s.taken + [Dropped(p.now, s.row.value)])
      else s.(processes := s.processes[x := Done])
  }

  predicate Runs(s: State, steps: seq<Step>, calm: (State, Step) -> bool)
    decreases |steps|
  {
    steps == [] ||
    (Enabled(s, steps[0]) && calm(s, steps[0]) && Runs(Next(s, steps[0]), steps[1..], calm))
  }

  function Final(s: State, steps: seq<Step>, calm: (State, Step) -> bool): State
    requires Runs(s, steps, calm)
    decreases |steps|
  {
    if steps == [] then s else Final(Next(s, steps[0]), steps[1..], calm)
  }

  predicate Initial(s: State) {
    !s.minted && s.row.None? && s.processes == map[] && s.taken == []
  }

  predicate AnyStep(s: State, step: Step) {
    true
  }

  /** Nobody asks for a token before it is minted. */
  predicate Calm(s: State, step: Step) {
    step.Begin? ==> s.minted
  }

  /** The one row is still there or was taken exactly once; a claim outlived the instant its request read. */
  ghost predicate OneFate(s: State) {
    && |s.taken| + (if s.row.Some? then 1 else 0) == (if s.minted then 1 else 0)
    && (s.row.Some? ==> s.row.value.volume in s.projects)
    && forall t :: t in s.taken && t.Claimed? ==> t.row.expiresAt > t.now && Visible(s.shared, t.row, t.volume)
  }

  lemma StepKeepsOneFate(s: State, step: Step)
    requires OneFate(s) && Enabled(s, step)
    ensures OneFate(Next(s, step))
  {}

  lemma {:induction false} RunKeepsOneFate(s: State, steps: seq<Step>, calm: (State, Step) -> bool)
    requires OneFate(s) && Runs(s, steps, calm)
    ensures OneFate(Final(s, steps, calm))
    decreases |steps|
  {
    if steps != [] {
      StepKeepsOneFate(s, steps[0]);
      RunKeepsOneFate(Next(s, steps[0]), steps[1..], calm);
    }
  }

  /**
   In every interleaving at most one process takes the row, so at most one download claims it; a claim
   outlived the instant its request read.
   */
  lemma AtMostOneClaim(start: State, steps: seq<Step>)
    requires Initial(start) && Runs(start, steps, AnyStep)
    ensures var end := Final(start, steps, AnyStep);
            && |end.taken| <= 1
            && (end.taken != [] ==> end.row.None?)
            && (end.taken != [] && end.taken[0].Claimed? ==> end.taken[0].row.expiresAt > end.taken[0].now)
  {
    RunKeepsOneFate(start, steps, AnyStep);
  }

  /** One of the first `n` probes reaches the row. */
  predicate Probed(s: State, n: nat)
    requires s.row.Some?
  {
    exists i :: 0 <= i < n && i < |s.projects| && Visible(s.shared, s.row.value, s.projects[i])
  }

  /** Processes that may delete without looking at the expiry only face a row already expired at their instant. */
  ghost predicate DropsAreLate(s: State) {
    && (s.processes != map[] ==> s.minted)
    && (forall x :: x in s.processes && s.row.Some? ==>
          match s.processes[x]
          case Probing(now, next, failed) => !failed && Probed(s, next) ==> s.row.value.expiresAt <= now
          case Reaping(now, _) => s.row.value.expiresAt <= now
          case Sweeping(now) => s.row.value.expiresAt <= now
          case Done => true)
    && (forall t :: t in s.taken && t.Dropped? ==> t.row.expiresAt <= t.now)
  }

  lemma StepKeepsDropsLate(s: State, step: Step)
    requires OneFate(s) && DropsAreLate(s) && Enabled(s, step) && Calm(s, step)
    ensures DropsAreLate(Next(s, step))
  {}

  lemma {:induction false} RunKeepsDropsLate(s: State, steps: seq<Step>)
    requires OneFate(s) && DropsAreLate(s) && Runs(s, steps, Calm)
    ensures DropsAreLate(Final(s, steps, Calm))
    decreases |steps|
  {
    if steps != [] {
      StepKeepsOneFate(s, steps[0]);
      StepKeepsDropsLate(s, steps[0]);
      RunKeepsDropsLate(Next(s, steps[0]), steps[1..]);
    }
  }

  /** The unconditional deletes of reaps and sweeps only take a row already expired at the instant they read. */
  lemma UnconditionalDeletesAreLate(start: State, steps: seq<Step>)
    requires Initial(start) && Runs(start, steps, Calm)
    ensures forall t :: t in Final(start, steps, Calm).taken && t.Dropped? ==> t.row.expiresAt <= t.now
  {
    RunKeepsDropsLate(start, steps);
  }

  // ---- a request that started before the token existed

  ghost predicate LateForever(s: State) {
    forall steps: seq<Step> :: Runs(s, steps, Calm) ==>
      forall t :: t in Final(s, steps, Calm).taken && t.Dropped? ==> t.row.expiresAt <= t.now
  }

  /** The probes a request still has to make. */
  function Probes(x: Worker, n: nat): seq<Step> {
    if n == 0 then [] else [Probe(x, false)] + Probes(x, n - 1)
  }

  lemma {:induction false} RunConcat(s: State, a: seq<Step>, b: seq<Step>, calm: (State, Step) -> bool)
    requires Runs(s, a, calm) && Runs(Final(s, a, calm), b, calm)
    ensures Runs(s, a + b, calm) && Final(s, a + b, calm) == Final(Final(s, a, calm), b, calm)
    decreases |a|
  {
    if a == [] {
      assert a + b == b;
    } else {
      assert (a + b)[1..] == a[1..] + b && (a + b)[0] == a[0];
      RunConcat(Next(s, a[0]), a[1..], b, calm);
    }
  }

  lemma {:induction false} ProbingNothing(s: State, x: Worker, now: int, i: nat)
    requires s.row.None? && i <= |s.projects| && x in s.processes && s.processes[x] == Probing(now, i, false)
    ensures Runs(s, Probes(x, |s.projects| - i), Calm)
    ensures Final(s, Probes(x, |s.projects| - i), Calm) == s.(processes := s.processes[x := Probing(now, |s.projects|, false)])
    decreases |s.projects| - i
  {
    var n := |s.projects| - i;
    if n > 0 {
      assert Probes(x, n)[1..] == Probes(x, n - 1);
      ProbingNothing(Next(s, Probe(x, false)), x, now, i + 1);
    } else {
      assert s.processes[x := Probing(now, |s.projects|, false)] == s.processes;
    }
  }

  lemma {:induction false} ProbingFinds(s: State, x: Worker, now: int, i: nat, n: nat)
    requires s.row.Some? && s.row.value.expiresAt > now && x in s.processes && s.processes[x] == Probing(now, i, false)
    requires i <= n < |s.projects| && Visible(s.shared, s.row.value, s.projects[n])
    requires forall k :: i <= k < n ==> !Visible(s.shared, s.row.value, s.projects[k])
    ensures Runs(s, Probes(x, n - i + 1), Calm)
    ensures Final(s, Probes(x, n - i + 1), Calm)
         == s.(row := None, processes := s.processes[x := Done], taken := s.taken + [Claimed(s.projects[n], now, s.row.value)])
    decreases n - i
  {
    var next := Next(s, Probe(x, false));
    assert Probes(x, n - i + 1)[1..] == Probes(x, n - i);
    if i < n {
      ProbingFinds(next, x, now, i + 1, n);
      assert next.processes[x := Done] == s.processes[x := Done];
    } else {
      assert Runs(next, [], Calm) && Final(next, [], Calm) == next;
    }
  }

  /** A request that meets a live row and no failure claims it for the first project that reaches it. */
  lemma ALiveLinkIsClaimed(s: State, x: Worker, n: nat)
    requires s.minted && s.row.Some? && s.row.value.expiresAt > s.clock && x !in s.processes
    requires n < |s.projects| && (s.shared || s.row.value.volume == s.projects[n])
    requires forall k :: 0 <= k < n ==> !s.shared && s.row.value.volume != s.projects[k]
    ensures var steps := [Begin(x)] + Probes(x, n + 1);
            && Runs(s, steps, Calm)
            && Final(s, steps, Calm).row == None
            && Final(s, steps, Calm).taken == s.taken + [Claimed(s.projects[n], s.clock, s.row.value)]
  {
    var begun := Next(s, Begin(x));
    ProbingFinds(begun, x, s.clock, 0, n);
    assert ([Begin(x)] + Probes(x, n + 1))[1..] == Probes(x, n + 1);
  }

  /** A request that found nothing before the mint goes on to reap the fresh row. */
  lemma EarlyRequestDropsALiveRow(s: State, x: Worker)
    requires !s.minted && s.row.None? && s.projects != [] && x !in s.processes
    ensures !LateForever(Next(s, Begin(x)))
  {
    var begun := Next(s, Begin(x));
    var probes := Probes(x, |s.projects|);
    ProbingNothing(begun, x, s.clock, 0);
    var probed := Final(begun, probes, Calm);
    var row := Row(s.projects[0], s.clock + 300_000_000);
    var reaping := Next(probed, EndProbes(x));
    var minted := Next(reaping, Mint(row));
    var end := Next(minted, Reap(x, false));
    var last := [EndProbes(x), Mint(row), Reap(x, false)];
    assert last[1..] == [Mint(row), Reap(x, false)] && last[1..][1..] == [Reap(x, false)] && last[1..][1..][1..] == [];
    assert Reaches(minted, 0);
    assert Runs(end, [], Calm);
    assert Runs(minted, [Reap(x, false)], Calm) && Final(minted, [Reap(x, false)], Calm) == Final(end, [], Calm);
    assert Runs(reaping, last[1..], Calm) && Final(reaping, last[1..], Calm) == end;
    assert Runs(probed, last, Calm) && Final(probed, last, Calm) == end;
    RunConcat(begun, probes, last, Calm);
    assert Dropped(s.clock, row) in end.taken;
  }

  /**
   A download request is harmless in every continuation if and only if the token it names is already minted:
   one that started earlier can delete the link while it is live.
   */
  lemma RequestHarmlessIffMinted(start: State, steps: seq<Step>, x: Worker)
    requires Initial(start) && Runs(start, steps, Calm) && start.projects != []
    requires x !in Final(start, steps, Calm).processes
    ensures var s := Final(start, steps, Calm);
            LateForever(Next(s, Begin(x))) <==> s.minted
  {
    var s := Final(start, steps, Calm);
    RunKeepsOneFate(start, steps, Calm);
    RunKeepsDropsLate(start, steps);
    ProjectsStay(start, steps);
    if s.minted {
      var begun := Next(s, Begin(x));
      StepKeepsOneFate(s, Begin(x));
      StepKeepsDropsLate(s, Begin(x));
      forall more: seq<Step> | Runs(begun, more, Calm)
        ensures forall t :: t in Final(begun, more, Calm).taken && t.Dropped? ==> t.row.expiresAt <= t.now
      {
        RunKeepsDropsLate(begun, more);
      }
    } else {
      EarlyRequestDropsALiveRow(s, x);
    }
  }

  lemma {:induction false} ProjectsStay(s: State, steps: seq<Step>)
    requires Runs(s, steps, Calm)
    ensures Final(s, steps, Calm).projects == s.projects
    decreases |steps|
  {
    if steps != [] {
      ProjectsStay(Next(s, steps[0]), steps[1..]);
    }
  }
}
