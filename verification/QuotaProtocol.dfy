/**
 Concurrent operations on one volume under a fixed project limit.

 One operation at a time holds the admission lock and lands its writes one by one. Permanent
 removals, renames (a move, a delete to the trash, a trash restore) and empty files never take the lock, so
 they may fall between any two writes of the holder. The holder may turn out to write something else than
 the list it was admitted on: a folder copy lists its source before it waits for the lock and reads it again to
 copy it, a refused conversion puts the former companion back. An operation may also give up part way.
 */
module QuotaProtocol {
  import opened Common
  import opened Volume
  import opened Safety
  import opened Quota

  datatype Pending = Free | Held(writes: seq<Change>)

  datatype State = State(tree: Tree, pending: Pending)

  datatype Step =
    | Admit(changes: seq<Change>)
    | Write
    | Finish
    | Replan(writes: seq<Change>)
    | GiveUp
    | Purge(path: Path)
    | Empty(path: Path)
    | Move(src: Path, dst: Path)

  /** `limit` is None for a project without one. The session charge may refuse an admission too: no step then. */
  ghost predicate Enabled(limit: Option<int>, s: State, step: Step) {
    match step
    case Admit(changes) =>
      var delta := NetChange(s.tree, Listing(changes));
      s.pending.Free? && (delta > 0 && limit.Some? ==> Usage(s.tree) + delta <= limit.value)
    case Write => s.pending.Held? && s.pending.writes != []
    case Finish => s.pending == Held([])
    case Replan(writes) => s.pending.Held?
    case GiveUp => s.pending.Held?
    case Purge(path) => true
    case Empty(path) => true
    case Move(src, dst) => src in s.tree && dst !in s.tree
  }

  function Next(s: State, step: Step): State {
    match step
    case Admit(changes) => s.(pending := Held(changes))
    case Write =>
      if s.pending.Held? && s.pending.writes != []
      then State(ApplyOne(s.tree, s.pending.writes[0]), Held(s.pending.writes[1..]))
      else s
    case Finish => s.(pending := Free)
    case Replan(writes) => s.(pending := Held(writes))
    case GiveUp => s.(pending := Free)
    case Purge(path) => s.(tree := s.tree - {path})
    case Empty(path) => s.(tree := s.tree[path := File(0)])
    case Move(src, dst) => if src in s.tree then s.(tree := Renamed(s.tree, src, dst)) else s
  }

  function Writes(s: State): seq<Change> {
    if s.pending.Held? then s.pending.writes else []
  }

  /** The usage once the lock holder has landed everything it still has to write. */
  ghost function Outstanding(s: State): nat {
    Usage(Apply(s.tree, Writes(s)))
  }

  /** No prefix of the writes still to land takes the usage over `bound`. */
  ghost predicate Bounded(s: State, bound: int) {
    forall i :: 0 <= i <= |Writes(s)| ==> Usage(Apply(s.tree, Writes(s)[..i])) <= bound
  }

  /** No prefix of the listed writes adds more than the whole list does, or than nothing at all. */
  predicate PrefixesFit(t: Tree, changes: seq<Change>) {
    forall i :: 0 <= i <= |changes| ==>
      NetChange(t, Listing(changes[..i])) <= Max(0, NetChange(t, Listing(changes)))
  }

  /** A rename takes a path the lock holder is about to overwrite and leaves its bytes elsewhere. */
  predicate Contested(s: State, step: Step) {
    step.Move? && step.src in Paths(Writes(s)) && step.dst !in Paths(Writes(s))
  }

  /** The steps under which the limit is kept to the last write. */
  ghost predicate Calm(s: State, step: Step) {
    !step.GiveUp? && !Contested(s, step) && (step.Replan? ==> Usage(Apply(s.tree, step.writes)) <= Outstanding(s))
  }

  /** The steps under which it is kept even when an operation gives up part way. */
  ghost predicate CalmPrefixes(s: State, step: Step) {
    && (step.Replan? ==> PrefixesFit(s.tree, step.writes) && Usage(Apply(s.tree, step.writes)) <= Outstanding(s))
    && (step.Move? ==> step.src !in Paths(Writes(s)))
    && (step.Admit? ==> PrefixesFit(s.tree, step.changes))
  }

  ghost predicate Runs(limit: Option<int>, s: State, steps: seq<Step>, calm: (State, Step) -> bool)
    decreases |steps|
  {
    steps == [] ||
    (Enabled(limit, s, steps[0]) && calm(s, steps[0]) && Runs(limit, Next(s, steps[0]), steps[1..], calm))
  }

  function Final(s: State, steps: seq<Step>): State
    decreases |steps|
  {
    if steps == [] then s else Final(Next(s, steps[0]), steps[1..])
  }

  /** An admission here is the one the entry points make, with `limit` as the stored quota of the project. */
  lemma AdmitIsTheCheck(limit: Option<int>, t: Tree, changes: seq<Change>, quotas: map<string, Option<int>>, project: string, quota: int, s: Session, bytes: int)
    requires project in quotas && quotas[project] == limit
    ensures Verdict(Admin(quotas), project, Usage(t), NetChange(t, Listing(changes)), quota, s, bytes).Ok?
      <==> Enabled(limit, State(t, Free), Admit(changes)) && s.bytesWritten + bytes <= quota
  {}

  /**
   What is left out of calm runs: giving up, a rename that takes a path still to be written to one that is not, and
   writing something else that leaves more behind.
   */
  lemma CalmInPlainTerms(s: State, step: Step)
    ensures Calm(s, step) <==>
      match step
      case GiveUp => false
      case Move(src, dst) => (exists c :: c in Writes(s) && c.path == src) ==> exists c :: c in Writes(s) && c.path == dst
      case Replan(writes) => Usage(Apply(s.tree, writes)) <= Usage(Apply(s.tree, Writes(s)))
      case _ => true
  {}

  /** Where operations may give up: no rename takes a path still to be written, and every list has prefixes that fit. */
  lemma CalmPrefixesInPlainTerms(s: State, step: Step)
    ensures CalmPrefixes(s, step) <==>
      match step
      case Admit(changes) => PrefixesFit(s.tree, changes)
      case Move(src, dst) => !exists c :: c in Writes(s) && c.path == src
      case Replan(writes) => PrefixesFit(s.tree, writes) && Usage(Apply(s.tree, writes)) <= Usage(Apply(s.tree, Writes(s)))
      case _ => true
  {}

  /**
   An append is admitted on the bytes it adds, whatever the file holds: whenever that passes, so does the write it
   makes, also when the file it found missing has appeared meanwhile.
   */
  lemma AppendIsAdmitted(limit: int, t: Tree, path: Path, added: nat, found: bool)
    requires added > 0 ==> Usage(t) + added <= limit
    ensures Enabled(Some(limit), State(t, Free), Admit([Put(path, added + if found then SizeAt(t, path) else 0)]))
  {
    var c := Put(path, added + if found then SizeAt(t, path) else 0);
    NetChangeIsUsageDifference(t, [c]);
    assert Apply(t, [c]) == ApplyOne(t, c);
    UsageStep(t, c);
  }

  // ---- what each step does to the outstanding usage

  lemma PurgeShrinks(t: Tree, p: Path, writes: seq<Change>)
    ensures Usage(Apply(t - {p}, writes)) <= Usage(Apply(t, writes))
  {
    UsageAfter(t, writes);
    UsageAfter(t - {p}, writes);
    UsageRestricts(t - Paths(writes), {p});
    assert (t - {p}) - Paths(writes) == (t - Paths(writes)) - {p};
  }

  /** An empty file counts as no file. */
  lemma EmptyIsLikePurge(t: Tree, p: Path, writes: seq<Change>)
    ensures Usage(Apply(t[p := File(0)], writes)) == Usage(Apply(t - {p}, writes))
  {
    var ps, emptied := Paths(writes), t[p := File(0)];
    UsageAfter(emptied, writes);
    UsageAfter(t - {p}, writes);
    UsageSplit(emptied - ps, p);
    assert (emptied - ps) - {p} == (t - {p}) - ps;
  }

  /** A rename changes the outstanding usage only when exactly one of its ends is still to be written. */
  lemma MoveShifts(t: Tree, src: Path, dst: Path, writes: seq<Change>)
    requires src in t && dst !in t
    ensures Usage(Apply(Renamed(t, src, dst), writes)) == Usage(Apply(t, writes))
      + (if src in Paths(writes) && dst !in Paths(writes) then SizeAt(t, src) else 0)
      - (if src !in Paths(writes) && dst in Paths(writes) then SizeAt(t, src) else 0)
  {
    var ps, after := Paths(writes), Renamed(t, src, dst);
    UsageAfter(t, writes);
    UsageAfter(after, writes);
    UsageSplit(t - ps, src);
    UsageSplit(after - ps, dst);
    MovedRemainder(t, src, dst, ps);
  }

  lemma MovedRemainder(t: Tree, src: Path, dst: Path, ps: set<Path>)
    requires src in t && dst !in t
    ensures (t - ps) - {src} == (Renamed(t, src, dst) - ps) - {dst}
    ensures SizeAt(t - ps, src) == if src in ps then 0 else SizeAt(t, src)
    ensures SizeAt(Renamed(t, src, dst) - ps, dst) == if dst in ps then 0 else SizeAt(t, src)
  {}

  lemma AdmittedFits(limit: int, t: Tree, changes: seq<Change>)
    requires Enabled(Some(limit), State(t, Free), Admit(changes))
    ensures Usage(Apply(t, changes)) <= Max(limit, Usage(t))
  {
    NetChangeIsUsageDifference(t, changes);
  }

  lemma CalmStepKeepsOutstanding(limit: int, s: State, step: Step, bound: int)
    requires Enabled(Some(limit), s, step) && Calm(s, step)
    requires limit <= bound && Outstanding(s) <= bound
    ensures Outstanding(Next(s, step)) <= bound
  {
    match step
    case Admit(changes) =>
      AdmittedFits(limit, s.tree, changes);
    case Write =>
    case Finish =>
    case Replan(_) =>
    case Purge(p) =>
      PurgeShrinks(s.tree, p, Writes(s));
    case Empty(p) =>
      PurgeShrinks(s.tree, p, Writes(s));
      EmptyIsLikePurge(s.tree, p, Writes(s));
    case Move(src, dst) =>
      MoveShifts(s.tree, src, dst, Writes(s));
    case GiveUp =>
  }

  lemma {:induction false} RunKeepsOutstanding(limit: int, s: State, steps: seq<Step>, bound: int)
    requires Runs(Some(limit), s, steps, Calm)
    requires limit <= bound && Outstanding(s) <= bound
    ensures Outstanding(Final(s, steps)) <= bound
    decreases |steps|
  {
    if steps != [] {
      CalmStepKeepsOutstanding(limit, s, steps[0], bound);
      RunKeepsOutstanding(limit, Next(s, steps[0]), steps[1..], bound);
    }
  }

  /**
   Whatever interleaves between two moments the lock is free, usage ends at or under the larger of
   the limit and the earlier usage: a usage at or under the limit stays there, one above it never grows.
   */
  lemma UsageNeverOvershoots(limit: int, s: State, steps: seq<Step>)
    requires s.pending.Free? && Final(s, steps).pending.Free?
    requires Runs(Some(limit), s, steps, Calm)
    ensures Usage(Final(s, steps).tree) <= Max(limit, Usage(s.tree))
    ensures Usage(s.tree) <= limit ==> Usage(Final(s, steps).tree) <= limit
    ensures Usage(s.tree) > limit ==> Usage(Final(s, steps).tree) <= Usage(s.tree)
  {
    RunKeepsOutstanding(limit, s, steps, Max(limit, Usage(s.tree)));
  }

  // ---- any run at all

  /** How far one step can lift the outstanding usage past what was admitted. */
  ghost function Lift(s: State, step: Step): nat {
    if Contested(s, step) then SizeAt(s.tree, step.src)
    else if step.GiveUp? then Max(0, Usage(s.tree) - Outstanding(s))
    else if step.Replan? then Max(0, Usage(Apply(s.tree, step.writes)) - Outstanding(s))
    else 0
  }

  ghost function Lifts(s: State, steps: seq<Step>): nat
    decreases |steps|
  {
    if steps == [] then 0 else Lift(s, steps[0]) + Lifts(Next(s, steps[0]), steps[1..])
  }

  predicate AnyStep(s: State, step: Step) {
    true
  }

  /** The lift of a step is exactly what it adds to the outstanding usage; what an admission adds was checked. */
  lemma LiftIsExact(limit: Option<int>, s: State, step: Step)
    requires Enabled(limit, s, step)
    ensures Lift(s, step) == if step.Admit? then 0 else Max(0, Outstanding(Next(s, step)) - Outstanding(s))
  {
    match step
    case Move(src, dst) => MoveShifts(s.tree, src, dst, Writes(s));
    case Purge(p) => PurgeShrinks(s.tree, p, Writes(s));
    case Empty(p) =>
      PurgeShrinks(s.tree, p, Writes(s));
      EmptyIsLikePurge(s.tree, p, Writes(s));
    case _ =>
  }

  lemma StepLiftsOutstanding(limit: int, s: State, step: Step, bound: int)
    requires Enabled(Some(limit), s, step)
    requires limit <= bound && Outstanding(s) <= bound
    ensures Outstanding(Next(s, step)) <= bound + Lift(s, step)
  {
    if Calm(s, step) {
      CalmStepKeepsOutstanding(limit, s, step, bound);
    } else if step.Move? {
      MoveShifts(s.tree, step.src, step.dst, Writes(s));
    }
  }

  lemma {:induction false} RunLiftsOutstanding(limit: int, s: State, steps: seq<Step>, bound: int)
    requires Runs(Some(limit), s, steps, AnyStep)
    requires limit <= bound && Outstanding(s) <= bound
    ensures Outstanding(Final(s, steps)) <= bound + Lifts(s, steps)
    decreases |steps|
  {
    if steps != [] {
      StepLiftsOutstanding(limit, s, steps[0], bound);
      RunLiftsOutstanding(limit, Next(s, steps[0]), steps[1..], bound + Lift(s, steps[0]));
    }
  }

  /**
   In every run, with no step excluded, usage exceeds the larger of the limit and the earlier usage by at most the
   sizes of the files renamed from under the lock holder, what operations that gave up had left to shrink, and what
   others wrote beyond their list.
   */
  lemma EveryRunIsBounded(limit: int, s: State, steps: seq<Step>)
    requires s.pending.Free? && Final(s, steps).pending.Free?
    requires Runs(Some(limit), s, steps, AnyStep)
    ensures Usage(Final(s, steps).tree) <= Max(limit, Usage(s.tree)) + Lifts(s, steps)
  {
    RunLiftsOutstanding(limit, s, steps, Max(limit, Usage(s.tree)));
  }

  // ---- operations that give up part way

  lemma AdmitBoundsPrefixes(limit: int, s: State, changes: seq<Change>, bound: int)
    requires Enabled(Some(limit), s, Admit(changes)) && PrefixesFit(s.tree, changes)
    requires limit <= bound && Usage(s.tree) <= bound
    ensures Bounded(Next(s, Admit(changes)), bound)
  {
    AdmittedFits(limit, s.tree, changes);
    NetChangeIsUsageDifference(s.tree, changes);
    forall i | 0 <= i <= |changes| ensures Usage(Apply(s.tree, changes[..i])) <= bound {
      NetChangeIsUsageDifference(s.tree, changes[..i]);
    }
  }

  lemma ReplanKeepsBounded(s: State, writes: seq<Change>, bound: int)
    requires s.pending.Held? && Bounded(s, bound)
    requires PrefixesFit(s.tree, writes) && Usage(Apply(s.tree, writes)) <= Outstanding(s)
    ensures Bounded(Next(s, Replan(writes)), bound)
  {
    assert Usage(Apply(s.tree, Writes(s)[..0])) <= bound && Apply(s.tree, []) == s.tree;
    assert Writes(s)[..|Writes(s)|] == Writes(s);
    NetChangeIsUsageDifference(s.tree, writes);
    forall i | 0 <= i <= |writes| ensures Usage(Apply(s.tree, writes[..i])) <= bound {
      NetChangeIsUsageDifference(s.tree, writes[..i]);
    }
  }

  lemma WriteKeepsBounded(s: State, bound: int)
    requires s.pending.Held? && s.pending.writes != [] && Bounded(s, bound)
    ensures Bounded(Next(s, Write), bound)
  {
    var w := Writes(s);
    forall i | 0 <= i <= |w[1..]| ensures Usage(Apply(ApplyOne(s.tree, w[0]), w[1..][..i])) <= bound {
      var j := i + 1;
      assert w[..j][1..] == w[1..][..i];
      assert Usage(Apply(s.tree, Writes(s)[..j])) <= bound;
    }
  }

  lemma UnlockedStepKeepsBounded(s: State, step: Step, bound: int)
    requires step.Purge? || step.Empty? || (step.Move? && step.src in s.tree && step.dst !in s.tree && step.src !in Paths(Writes(s)))
    requires Bounded(s, bound)
    ensures Bounded(Next(s, step), bound)
  {
    var w := Writes(s);
    forall i | 0 <= i <= |w| ensures Usage(Apply(Next(s, step).tree, w[..i])) <= bound {
      assert Usage(Apply(s.tree, w[..i])) <= bound;
      if step.Purge? {
        PurgeShrinks(s.tree, step.path, w[..i]);
      } else if step.Empty? {
        PurgeShrinks(s.tree, step.path, w[..i]);
        EmptyIsLikePurge(s.tree, step.path, w[..i]);
      } else {
        assert Paths(w[..i]) <= Paths(w);
        MoveShifts(s.tree, step.src, step.dst, w[..i]);
      }
    }
  }

  lemma StepKeepsBounded(limit: int, s: State, step: Step, bound: int)
    requires Enabled(Some(limit), s, step) && CalmPrefixes(s, step)
    requires limit <= bound && Bounded(s, bound)
    ensures Bounded(Next(s, step), bound)
  {
    assert Usage(Apply(s.tree, Writes(s)[..0])) <= bound;
    assert Apply(s.tree, []) == s.tree;
    match step
    case Admit(changes) => AdmitBoundsPrefixes(limit, s, changes, bound);
    case Write => WriteKeepsBounded(s, bound);
    case Finish =>
    case Replan(writes) => ReplanKeepsBounded(s, writes, bound);
    case GiveUp =>
    case Purge(_) => UnlockedStepKeepsBounded(s, step, bound);
    case Empty(_) => UnlockedStepKeepsBounded(s, step, bound);
    case Move(_, _) => UnlockedStepKeepsBounded(s, step, bound);
  }

  /**
   With lists whose prefixes fit, the limit survives operations that give up at any point: at every
   moment of the run, mid operation included, usage is at most the larger of the limit and the earlier usage.
   */
  lemma {:induction false} GivingUpNeverOvershoots(limit: int, s: State, steps: seq<Step>, bound: int)
    requires Runs(Some(limit), s, steps, CalmPrefixes)
    requires limit <= bound && Bounded(s, bound)
    ensures Usage(Final(s, steps).tree) <= bound
    decreases |steps|
  {
    if steps == [] {
      assert Usage(Apply(s.tree, Writes(s)[..0])) <= bound;
    } else {
      StepKeepsBounded(limit, s, steps[0], bound);
      GivingUpNeverOvershoots(limit, Next(s, steps[0]), steps[1..], bound);
    }
  }

  /**
   Giving up is safe at every point and under every limit that admits the list exactly when no
   prefix of the list adds more than the whole of it.
   */
  lemma GivingUpIsSafeIffPrefixesFit(t: Tree, changes: seq<Change>)
    ensures PrefixesFit(t, changes) <==>
      forall limit: int, i: int ::
        Enabled(Some(limit), State(t, Free), Admit(changes)) && 0 <= i <= |changes| ==>
          Usage(Apply(t, changes[..i])) <= Max(limit, Usage(t))
  {
    NetChangeIsUsageDifference(t, changes);
    forall i | 0 <= i <= |changes| {
      NetChangeIsUsageDifference(t, changes[..i]);
    }
    if !PrefixesFit(t, changes) {
      var i :| 0 <= i <= |changes| && NetChange(t, Listing(changes[..i])) > Max(0, NetChange(t, Listing(changes)));
      var limit := Usage(t) + Max(0, NetChange(t, Listing(changes)));
      assert Enabled(Some(limit), State(t, Free), Admit(changes));
      assert Usage(Apply(t, changes[..i])) > Max(limit, Usage(t));
    }
  }

  /** A list that writes each path once, and shrinks before it grows, has no prefix that overshoots. */
  lemma ShrinkingFirstFits(t: Tree, changes: seq<Change>, n: nat)
    requires n <= |changes|
    requires forall i, j :: 0 <= i < j < |changes| ==> changes[i].path != changes[j].path
    requires forall i :: 0 <= i < n ==> NewSize(changes[i]) <= SizeAt(t, changes[i].path)
    requires forall i :: n <= i < |changes| ==> NewSize(changes[i]) >= SizeAt(t, changes[i].path)
    ensures PrefixesFit(t, changes)
  {
    forall i | 0 <= i <= |changes|
      ensures NetChange(t, Listing(changes[..i])) <= Max(0, NetChange(t, Listing(changes)))
    {
      if i <= n {
        NetOfDistinct(t, changes[..i]);
        SumSign(t, changes[..i], true);
      } else {
        NetOfDistinct(t, changes[..i]);
        NetOfDistinct(t, changes);
        assert changes == changes[..i] + changes[i..];
        SumSplits(t, changes[..i], changes[i..]);
        SumSign(t, changes[i..], false);
      }
    }
  }

  function Sum(t: Tree, changes: seq<Change>): int
    decreases |changes|
  {
    if changes == [] then 0 else NewSize(changes[0]) - SizeAt(t, changes[0].path) + Sum(t, changes[1..])
  }

  lemma {:induction false} NetOfDistinct(t: Tree, changes: seq<Change>)
    requires forall i, j :: 0 <= i < j < |changes| ==> changes[i].path != changes[j].path
    ensures NetChange(t, Listing(changes)) == Sum(t, changes)
    decreases |changes|
  {
    if changes != [] {
      var rest := changes[1..];
      NetOfDistinct(t, rest);
      ListedPaths(rest);
      assert Listing(changes)[1..] == Listing(rest);
      assert changes[0].path !in Paths(rest);
    }
  }

  lemma {:induction false} SumSplits(t: Tree, a: seq<Change>, b: seq<Change>)
    ensures Sum(t, a + b) == Sum(t, a) + Sum(t, b)
    decreases |a|
  {
    if a == [] {
      assert a + b == b;
    } else {
      assert (a + b)[1..] == a[1..] + b;
      SumSplits(t, a[1..], b);
    }
  }

  lemma {:induction false} SumSign(t: Tree, changes: seq<Change>, shrinking: bool)
    requires forall c :: c in changes ==>
      if shrinking then NewSize(c) <= SizeAt(t, c.path) else NewSize(c) >= SizeAt(t, c.path)
    ensures if shrinking then Sum(t, changes) <= 0 else Sum(t, changes) >= 0
    decreases |changes|
  {
    if changes != [] {
      SumSign(t, changes[1..], shrinking);
    }
  }

  // ---- a rename racing the lock holder

  /** The lock holder landing every write it has left. */
  function Landing(n: nat): seq<Step> {
    if n == 0 then [Finish] else [Write] + Landing(n - 1)
  }

  lemma {:induction false} LandingReachesOutstanding(limit: Option<int>, s: State)
    requires s.pending.Held?
    ensures Runs(limit, s, Landing(|Writes(s)|), Calm)
    ensures Final(s, Landing(|Writes(s)|)) == State(Apply(s.tree, Writes(s)), Free)
    decreases |Writes(s)|
  {
    var n := |Writes(s)|;
    if n == 0 {
      assert s.pending == Held([]);
      assert Runs(limit, Next(s, Finish), [Finish][1..], Calm);
    } else {
      assert Landing(n)[1..] == Landing(n - 1);
      LandingReachesOutstanding(limit, Next(s, Write));
    }
  }

  /**
   A rename of a path the holder is about to overwrite adds that file's size on top of the admitted
   change: once the holder has landed, the limit is overshot exactly when the sum exceeds it.
   */
  lemma RacingMoveAddsItsSize(limit: Option<int>, s: State, src: Path, dst: Path)
    requires s.pending.Held? && Enabled(limit, s, Move(src, dst)) && Contested(s, Move(src, dst))
    ensures var moved := Next(s, Move(src, dst));
            var end := Final(moved, Landing(|Writes(s)|));
            && Runs(limit, moved, Landing(|Writes(s)|), Calm)
            && end.pending.Free?
            && Usage(end.tree) == Outstanding(s) + SizeAt(s.tree, src)
  {
    MoveShifts(s.tree, src, dst, Writes(s));
    LandingReachesOutstanding(limit, Next(s, Move(src, dst)));
  }

  /** Whatever calm steps follow, usage is at most `bound` whenever the lock is free. */
  ghost predicate KeepsBound(limit: int, s: State, bound: int) {
    forall steps: seq<Step> :: Runs(Some(limit), s, steps, Calm) && Final(s, steps).pending.Free? ==>
      Usage(Final(s, steps).tree) <= bound
  }

  /**
   A rename during an operation keeps the bound in every continuation if and only if the path it takes is not
   one the holder will overwrite, or that file fits on top of what the operation was admitted for.
   */
  lemma MoveIsSafeIffItFits(limit: int, s: State, src: Path, dst: Path, bound: int)
    requires s.pending.Held? && Enabled(Some(limit), s, Move(src, dst))
    requires limit <= bound && Outstanding(s) <= bound
    ensures KeepsBound(limit, Next(s, Move(src, dst)), bound)
      <==> (Contested(s, Move(src, dst)) ==> Outstanding(s) + SizeAt(s.tree, src) <= bound)
  {
    var moved := Next(s, Move(src, dst));
    MoveShifts(s.tree, src, dst, Writes(s));
    if Contested(s, Move(src, dst)) && Outstanding(s) + SizeAt(s.tree, src) > bound {
      RacingMoveAddsItsSize(Some(limit), s, src, dst);
      assert Runs(Some(limit), moved, Landing(|Writes(s)|), Calm);
    } else {
      forall steps: seq<Step> | Runs(Some(limit), moved, steps, Calm) && Final(moved, steps).pending.Free?
        ensures Usage(Final(moved, steps).tree) <= bound
      {
        RunKeepsOutstanding(limit, moved, steps, bound);
      }
    }
  }

  /**
   An operation that turns out to write something else than its list keeps the bound in every continuation if and
   only if a check of what it writes, on the usage as it is now, would have let it through.
   */
  lemma ReplanIsSafeIffItWouldBeAdmitted(limit: int, s: State, writes: seq<Change>, bound: int)
    requires s.pending.Held? && limit <= bound
    ensures KeepsBound(limit, Next(s, Replan(writes)), bound)
      <==> Usage(s.tree) + NetChange(s.tree, Listing(writes)) <= bound
  {
    var next := Next(s, Replan(writes));
    NetChangeIsUsageDifference(s.tree, writes);
    if Outstanding(next) <= bound {
      forall steps: seq<Step> | Runs(Some(limit), next, steps, Calm) && Final(next, steps).pending.Free?
        ensures Usage(Final(next, steps).tree) <= bound
      {
        RunKeepsOutstanding(limit, next, steps, bound);
      }
    } else {
      LandingReachesOutstanding(Some(limit), next);
      assert Runs(Some(limit), next, Landing(|writes|), Calm);
    }
  }

  /**
   A folder copy listed while its file had 1 byte, admitted once an upload made it 8, copies 8: the project ends
   at 16 bytes under a limit of 12, with no rename and nothing given up.
   */
  lemma FolderCopyExceedsTheLimit()
    ensures var listed: Tree := map["/s/a" := File(1)];
            var upload, copy, copied := [Put("/s/a", 8)], [Put("/d/a", 1)], [Put("/d/a", 8)];
            var grown := State(map["/s/a" := File(8)], Free);
            && Usage(listed) == 1
            && Enabled(Some(12), State(listed, Free), Admit(upload))
            && Final(Next(State(listed, Free), Admit(upload)), Landing(1)) == grown
            && Enabled(Some(12), grown, Admit(copy))
            && Usage(Final(Next(Next(grown, Admit(copy)), Replan(copied)), Landing(1)).tree) == 16
  {
    var listed: Tree := map["/s/a" := File(1)];
    var grown: Tree := map["/s/a" := File(8)];
    var upload, copy, copied := Put("/s/a", 8), Put("/d/a", 1), Put("/d/a", 8);
    assert "/s/a"[1] != "/d/a"[1];
    SingleFile(listed, "/s/a", 1);
    SingleFile(grown, "/s/a", 8);
    OneWrite(Some(12), State(listed, Free), upload);
    OneWrite(Some(12), State(grown, Free), copy);
    OneWrite(Some(12), State(grown, Free), copied);
    assert ApplyOne(listed, upload) == grown;
  }

  lemma SingleFile(t: Tree, p: Path, size: nat)
    requires t == map[p := File(size)]
    ensures Usage(t) == size
  {
    UsageSplit(t, p);
    assert t - {p} == map[];
  }

  /** What one write does, from its admission to its landing. */
  lemma OneWrite(limit: Option<int>, s: State, c: Change)
    requires s.pending.Free?
    ensures NetChange(s.tree, Listing([c])) == NewSize(c) - SizeAt(s.tree, c.path)
    ensures Final(s.(pending := Held([c])), Landing(1)) == State(ApplyOne(s.tree, c), Free)
    ensures Usage(ApplyOne(s.tree, c)) == Usage(s.tree) - SizeAt(s.tree, c.path) + NewSize(c)
  {
    assert Apply(s.tree, [c]) == ApplyOne(s.tree, c);
    UsageStep(s.tree, c);
    NetChangeIsUsageDifference(s.tree, [c]);
    LandingReachesOutstanding(limit, s.(pending := Held([c])));
  }

  /** A project under its limit left over it: a 10 byte file is admitted to grow to 12, renamed, then rewritten. */
  lemma MoveRaceExceedsTheLimit()
    ensures var s := State(map["/a" := File(10)], Held([Put("/a", 12)]));
            && Enabled(Some(12), State(s.tree, Free), Admit([Put("/a", 12)]))
            && Next(State(s.tree, Free), Admit([Put("/a", 12)])) == s
            && Usage(s.tree) == 10
            && Usage(Final(Next(s, Move("/a", "/b")), Landing(1)).tree) == 22
  {
    var t: Tree := map["/a" := File(10)];
    var c := Put("/a", 12);
    var s := State(t, Held([c]));
    UsageSplit(t, "/a");
    assert t - {"/a"} == map[];
    UsageStep(t, c);
    NetChangeIsUsageDifference(t, [c]);
    assert Apply(t, [c]) == ApplyOne(t, c);
    assert c in [c];
    assert "/a" in Paths([c]);
    assert forall x :: x in [c] ==> x == c;
    assert "/b" !in Paths([c]) by { assert "/a"[1] != "/b"[1]; }
    RacingMoveAddsItsSize(Some(12), s, "/a", "/b");
  }
}
