/**
 Orphan sweeps racing writers over the content blobs of one bucket.

 A writer puts bytes, which stamps their time, and adds a reference to them later. A copier reads the hash of a
 referenced blob and adds its own reference later, without putting anything: the references in between may go.
 A sweep looks at one key at a time: it re checks the references, reads the time afresh, deletes.
 Those are three separate store calls, and any number of sweeps and writers interleave.
 */
module OrphanProtocol {
  import OrphanSweep

  const MIN_AGE := OrphanSweep.ORPHAN_MIN_AGE

  type Hash = string

  type Worker = nat

  /** Where a sweep stands; every phase keeps the cutoff of its sweep. */
  datatype Sweeper =
    | Looking(cutoff: int)
    | Checked(cutoff: int, key: Hash)
    | Aged(cutoff: int, key: Hash)

  datatype Put = Put(key: Hash, at: int)

  /** `refs` counts the references to each hash, `blobs` maps stored bytes to their time. */
  datatype State = State(
    clock: int,
    blobs: map<Hash, int>,
    refs: multiset<Hash>,
    writers: map<Worker, Put>,
    copiers: map<Worker, Hash>,
    sweepers: map<Worker, Sweeper>
  )

  datatype Step =
    | Tick(to: int)
    | PutBytes(w: Worker, key: Hash)
    | AddRef(w: Worker)
    | Abandon(w: Worker)
    | ReadHash(w: Worker, key: Hash)
    | Link(w: Worker)
    | Forget(w: Worker)
    | Drop(key: Hash)
    | Start(x: Worker, now: int)
    | Recheck(x: Worker, key: Hash)
    | Reread(x: Worker)
    | Delete(x: Worker)
    | Skip(x: Worker)

  predicate Enabled(s: State, step: Step) {
    match step
    case Tick(to) => to >= s.clock
    case PutBytes(w, key) => w !in s.writers
    case AddRef(w) => w in s.writers
    case Abandon(w) => w in s.writers
    case ReadHash(w, key) => w !in s.copiers && key in s.refs
    case Link(w) => w in s.copiers
    case Forget(w) => w in s.copiers
    case Drop(key) => key in s.refs
    case Start(x, now) => now <= s.clock
    case Recheck(x, key) => x in s.sweepers && s.sweepers[x].Looking? && key !in s.refs
    case Reread(x) =>
      && x in s.sweepers && s.sweepers[x].Checked?
      && s.sweepers[x].key in s.blobs && s.blobs[s.sweepers[x].key] < s.sweepers[x].cutoff
    case Delete(x) => x in s.sweepers && s.sweepers[x].Aged?
    case Skip(x) => x in s.sweepers
  }

  function Next(s: State, step: Step): State
    requires Enabled(s, step)
  {
    match step
    case Tick(to) => s.(clock := to)
    case PutBytes(w, key) => s.(blobs := s.blobs[key := s.clock], writers := s.writers[w := Put(key, s.clock)])
    case AddRef(w) => s.(refs := s.refs + multiset{s.writers[w].key}, writers := s.writers - {w})
    case Abandon(w) => s.(writers := s.writers - {w})
    case ReadHash(w, key) => s.(copiers := s.copiers[w := key])
    case Link(w) => s.(refs := s.refs + multiset{s.copiers[w]}, copiers := s.copiers - {w})
    case Forget(w) => s.(copiers := s.copiers - {w})
    case Drop(key) => s.(refs := s.refs - multiset{key})
    case Start(x, now) => s.(sweepers := s.sweepers[x := Looking(OrphanSweep.Cutoff(now))])
    case Recheck(x, key) => s.(sweepers := s.sweepers[x := Checked(s.sweepers[x].cutoff, key)])
    case Reread(x) => s.(sweepers := s.sweepers[x := Aged(s.sweepers[x].cutoff, s.sweepers[x].key)])
    case Delete(x) =>
      s.(blobs := s.blobs - {s.sweepers[x].key}, sweepers := s.sweepers[x := Looking(s.sweepers[x].cutoff)])
    case Skip(x) => s.(sweepers := s.sweepers[x := Looking(s.sweepers[x].cutoff)])
  }

  predicate Runs(s: State, steps: seq<Step>, calm: (State, Step) -> bool)
    decreases |steps|
  {
    steps == [] ||
    (Enabled(s, steps[0]) && calm(s, steps[0]) && Runs(Next(s, steps[0]), steps[1..], calm))
  }

  function Final(s: State, steps: seq<Step>, calm: (State, Step) -> bool): State
    requires Runs(s, steps, calm)
    decreases |steps|
  {
    if steps == [] then s else Final(Next(s, steps[0]), steps[1..], calm)
  }

  /** Every referenced content blob has its bytes. */
  ghost predicate Safe(s: State) {
    forall k :: k in s.refs ==> k in s.blobs
  }

  /** A sweep has read an old time for `key` and not yet deleted it. */
  predicate InWindow(s: State, key: Hash) {
    exists x :: x in s.sweepers && s.sweepers[x].Aged? && s.sweepers[x].key == key
  }

  /**
   A reference to `key` may be added without putting its bytes: it has one already, or its bytes are there and every
   sweep that is past its re check of the key still has to see that they are too young.
   */
  predicate CanLink(s: State, key: Hash) {
    key in s.refs
    || (&& key in s.blobs && !InWindow(s, key)
        && forall x :: x in s.sweepers && s.sweepers[x].Checked? && s.sweepers[x].key == key ==> s.sweepers[x].cutoff <= s.blobs[key])
  }

  /**
   No bytes are put inside a window between a time read and its delete, and a reference comes less than 24 hours
   after its put, or when it can be added without one.
   */
  predicate Calm(s: State, step: Step) {
    && (step.PutBytes? ==> !InWindow(s, step.key))
    && (step.AddRef? && step.w in s.writers ==>
          s.clock < s.writers[step.w].at + MIN_AGE || CanLink(s, s.writers[step.w].key))
    && (step.Link? && step.w in s.copiers ==> CanLink(s, s.copiers[step.w]))
  }

  /** All that calm runs leave out: puts inside a window, and references that come a day after their put or without one. */
  lemma CalmInPlainTerms(s: State, step: Step)
    requires Enabled(s, step)
    ensures Calm(s, step) <==>
      match step
      case PutBytes(_, key) => forall x :: x in s.sweepers ==> s.sweepers[x].Looking? || s.sweepers[x].Checked? || s.sweepers[x].key != key
      case AddRef(w) => s.clock < s.writers[w].at + 86_400_000_000 || CanLink(s, s.writers[w].key)
      case Link(w) => CanLink(s, s.copiers[w])
      case _ => true
  {}

  /** A sweep can take any blob more than a day old that nothing refers to, and takes nothing else with it. */
  lemma OldUnreferencedBlobCanGo(s: State, x: Worker, key: Hash)
    requires key in s.blobs && key !in s.refs && s.blobs[key] < s.clock - 86_400_000_000
    ensures var steps := [Start(x, s.clock), Recheck(x, key), Reread(x), Delete(x)];
            && Runs(s, steps, Calm)
            && Final(s, steps, Calm).blobs == s.blobs - {key} && Final(s, steps, Calm).refs == s.refs
  {
    var started := Next(s, Start(x, s.clock));
    var checked := Next(started, Recheck(x, key));
    CheckedBlobGoes(checked, x);
    OneStep(started, Recheck(x, key), [Reread(x), Delete(x)]);
    OneStep(s, Start(x, s.clock), [Recheck(x, key), Reread(x), Delete(x)]);
    assert [Recheck(x, key)] + [Reread(x), Delete(x)] == [Recheck(x, key), Reread(x), Delete(x)];
    assert [Start(x, s.clock)] + [Recheck(x, key), Reread(x), Delete(x)] == [Start(x, s.clock), Recheck(x, key), Reread(x), Delete(x)];
  }

  lemma CheckedBlobGoes(s: State, x: Worker)
    requires Enabled(s, Reread(x))
    ensures Runs(s, [Reread(x), Delete(x)], Calm)
    ensures Final(s, [Reread(x), Delete(x)], Calm).blobs == s.blobs - {s.sweepers[x].key}
    ensures Final(s, [Reread(x), Delete(x)], Calm).refs == s.refs
  {
    var aged := Next(s, Reread(x));
    OneStep(aged, Delete(x), []);
    OneStep(s, Reread(x), [Delete(x)]);
    assert [Delete(x)] + [] == [Delete(x)];
    assert [Reread(x)] + [Delete(x)] == [Reread(x), Delete(x)];
  }

  lemma OneStep(s: State, step: Step, rest: seq<Step>)
    requires Enabled(s, step) && Calm(s, step) && Runs(Next(s, step), rest, Calm)
    ensures Runs(s, [step] + rest, Calm)
    ensures Final(s, [step] + rest, Calm) == Final(Next(s, step), rest, Calm)
  {
    assert ([step] + rest)[1..] == rest;
  }

  ghost predicate Initial(s: State) {
    Safe(s) && s.writers == map[] && s.copiers == map[] && s.sweepers == map[]
  }

  /** A put less than 24 hours old still has its bytes, at its time or a later one. */
  ghost predicate FreshPutsHold(s: State) {
    forall w :: w in s.writers ==>
      var p := s.writers[w];
      p.at <= s.clock && (s.clock < p.at + MIN_AGE ==> p.key in s.blobs && s.blobs[p.key] >= p.at)
  }

  ghost predicate CutoffsArePast(s: State) {
    forall x :: x in s.sweepers ==> s.sweepers[x].cutoff + MIN_AGE <= s.clock
  }

  /** A key that gained a reference after its re check is too young for that sweep. */
  ghost predicate CheckedKeysSafe(s: State) {
    forall x :: x in s.sweepers && s.sweepers[x].Checked? && s.sweepers[x].key in s.refs ==>
      s.sweepers[x].key in s.blobs && s.blobs[s.sweepers[x].key] >= s.sweepers[x].cutoff
  }

  /** A key about to be deleted has no reference, and no writer that could still add one. */
  ghost predicate AgedKeysDead(s: State) {
    forall x :: x in s.sweepers && s.sweepers[x].Aged? ==>
      && s.sweepers[x].key !in s.refs
      && (forall w :: w in s.writers && s.writers[w].key == s.sweepers[x].key ==> s.writers[w].at + MIN_AGE <= s.clock)
  }

  ghost predicate Inv(s: State) {
    Safe(s) && FreshPutsHold(s) && CutoffsArePast(s) && CheckedKeysSafe(s) && AgedKeysDead(s)
  }

  lemma PutKeepsInv(s: State, w: Worker, key: Hash)
    requires Inv(s) && w !in s.writers && !InWindow(s, key)
    ensures Inv(Next(s, PutBytes(w, key)))
  {}

  /** A put less than 24 hours old makes its reference safe to add. */
  lemma FreshPutCanLink(s: State, w: Worker)
    requires Inv(s) && w in s.writers && s.clock < s.writers[w].at + 86_400_000_000
    ensures CanLink(s, s.writers[w].key)
  {}

  lemma LinkKeepsInv(s: State, next: State, key: Hash)
    requires Inv(s) && CanLink(s, key)
    requires next.refs == s.refs + multiset{key} && next.writers.Items <= s.writers.Items
    requires next.clock == s.clock && next.blobs == s.blobs && next.sweepers == s.sweepers
    ensures Inv(next)
  {
    forall w | w in next.writers ensures w in s.writers && s.writers[w] == next.writers[w] {
      assert (w, next.writers[w]) in next.writers.Items;
    }
  }

  lemma RefsShrinkKeepsInv(s: State, step: Step)
    requires Inv(s) && Enabled(s, step)
    requires step.Drop? || step.Abandon? || step.Tick? || step.ReadHash? || step.Forget?
    ensures Inv(Next(s, step))
  {}

  lemma LookKeepsInv(s: State, step: Step)
    requires Inv(s) && Enabled(s, step) && (step.Start? || step.Recheck? || step.Skip?)
    ensures Inv(Next(s, step))
  {}

  lemma RereadKeepsInv(s: State, x: Worker)
    requires Inv(s) && Enabled(s, Reread(x))
    ensures Inv(Next(s, Reread(x)))
  {}

  lemma DeleteKeepsInv(s: State, x: Worker)
    requires Inv(s) && Enabled(s, Delete(x))
    ensures Inv(Next(s, Delete(x)))
  {}

  lemma StepKeepsInv(s: State, step: Step)
    requires Inv(s) && Enabled(s, step) && Calm(s, step)
    ensures Inv(Next(s, step))
  {
    match step
    case PutBytes(w, key) => PutKeepsInv(s, w, key);
    case AddRef(w) =>
      if s.clock < s.writers[w].at + MIN_AGE {
        FreshPutCanLink(s, w);
      }
      LinkKeepsInv(s, Next(s, step), s.writers[w].key);
    case Link(w) => LinkKeepsInv(s, Next(s, step), s.copiers[w]);
    case Reread(x) => RereadKeepsInv(s, x);
    case Delete(x) => DeleteKeepsInv(s, x);
    case Tick(_) => RefsShrinkKeepsInv(s, step);
    case ReadHash(_, _) => RefsShrinkKeepsInv(s, step);
    case Forget(_) => RefsShrinkKeepsInv(s, step);
    case Drop(_) => RefsShrinkKeepsInv(s, step);
    case Abandon(_) => RefsShrinkKeepsInv(s, step);
    case Start(_, _) => LookKeepsInv(s, step);
    case Recheck(_, _) => LookKeepsInv(s, step);
    case Skip(_) => LookKeepsInv(s, step);
  }

  lemma {:induction false} RunKeepsInv(s: State, steps: seq<Step>)
    requires Inv(s) && Runs(s, steps, Calm)
    ensures Inv(Final(s, steps, Calm))
    decreases |steps|
  {
    if steps != [] {
      StepKeepsInv(s, steps[0]);
      RunKeepsInv(Next(s, steps[0]), steps[1..]);
    }
  }

  /**
   In every interleaving of sweeps, writers, copiers and dropped references in which no put falls inside a delete
   window and every reference comes in time, every referenced content blob keeps its bytes.
   */
  lemma ReferencedBlobsSurvive(s: State, steps: seq<Step>)
    requires Initial(s) && Runs(s, steps, Calm)
    ensures Safe(Final(s, steps, Calm))
  {
    RunKeepsInv(s, steps);
  }

  /** Whatever calm steps follow, no referenced blob loses its bytes. */
  ghost predicate SafeForever(s: State) {
    forall steps: seq<Step> :: Runs(s, steps, Calm) ==> Safe(Final(s, steps, Calm))
  }

  lemma PutInTheWindowIsLost(s: State, w: Worker, key: Hash)
    requires w !in s.writers && InWindow(s, key)
    ensures !SafeForever(Next(s, PutBytes(w, key)))
  {
    var put := Next(s, PutBytes(w, key));
    assert s.clock < put.writers[w].at + MIN_AGE;
    var x :| x in s.sweepers && s.sweepers[x].Aged? && s.sweepers[x].key == key;
    var steps := [AddRef(w), Delete(x)];
    var referenced := Next(put, AddRef(w));
    var lost := Next(referenced, Delete(x));
    assert steps[1..] == [Delete(x)] && [Delete(x)][1..] == [];
    assert Runs(lost, [], Calm);
    assert Runs(referenced, [Delete(x)], Calm);
    assert Final(referenced, [Delete(x)], Calm) == Final(lost, [], Calm);
    assert Final(put, steps, Calm) == Final(referenced, [Delete(x)], Calm);
    assert key in lost.refs && key !in lost.blobs;
  }

  /**
   The window is exactly what has to stay free: in any state a calm run reaches, a put is safe in every
   continuation if and only if no sweep is between its time read and its delete of that key.
   */
  lemma PutIsSafeIffOutsideTheWindow(start: State, steps: seq<Step>, w: Worker, key: Hash)
    requires Initial(start) && Runs(start, steps, Calm)
    requires w !in Final(start, steps, Calm).writers
    ensures var s := Final(start, steps, Calm);
            SafeForever(Next(s, PutBytes(w, key))) <==> !InWindow(s, key)
  {
    var s := Final(start, steps, Calm);
    RunKeepsInv(start, steps);
    if InWindow(s, key) {
      PutInTheWindowIsLost(s, w, key);
    } else {
      var put := Next(s, PutBytes(w, key));
      PutKeepsInv(s, w, key);
      forall more: seq<Step> | Runs(put, more, Calm) ensures Safe(Final(put, more, Calm)) {
        RunKeepsInv(put, more);
      }
    }
  }

  /** A sweep past its time read deletes the key under the new reference. */
  lemma DeletedUnderReference(s: State, x: Worker)
    requires x in s.sweepers && s.sweepers[x].Aged? && s.sweepers[x].key in s.refs
    ensures !SafeForever(s)
  {
    var lost := Next(s, Delete(x));
    assert [Delete(x)][1..] == [];
    assert Runs(lost, [], Calm) && Runs(s, [Delete(x)], Calm);
    assert Final(s, [Delete(x)], Calm) == Final(lost, [], Calm);
    assert s.sweepers[x].key in lost.refs && s.sweepers[x].key !in lost.blobs;
  }

  /** A sweep past its re check reads an old time and deletes the key under the new reference. */
  lemma AgedUnderReference(s: State, x: Worker)
    requires x in s.sweepers && s.sweepers[x].Checked? && s.sweepers[x].key in s.refs
    requires s.sweepers[x].key in s.blobs && s.blobs[s.sweepers[x].key] < s.sweepers[x].cutoff
    ensures !SafeForever(s)
  {
    var aged, steps := Next(s, Reread(x)), [Reread(x), Delete(x)];
    var lost := Next(aged, Delete(x));
    assert steps[1..] == [Delete(x)] && [Delete(x)][1..] == [];
    assert Runs(lost, [], Calm) && Runs(aged, [Delete(x)], Calm) && Runs(s, steps, Calm);
    assert Final(aged, [Delete(x)], Calm) == Final(lost, [], Calm);
    assert Final(s, steps, Calm) == Final(aged, [Delete(x)], Calm);
    assert s.sweepers[x].key in lost.refs && s.sweepers[x].key !in lost.blobs;
  }

  /**
   In any state a calm run reaches, adding a reference without putting the bytes, as a folder copy does with the hash
   it read before, is safe in every continuation if and only if the hash still has a reference, or its bytes are
   there and no sweep past its re check can take them for old.
   */
  lemma LinkIsSafeIff(start: State, steps: seq<Step>, w: Worker)
    requires Initial(start) && Runs(start, steps, Calm)
    requires w in Final(start, steps, Calm).copiers
    ensures var s := Final(start, steps, Calm);
            SafeForever(Next(s, Link(w))) <==> CanLink(s, s.copiers[w])
  {
    var s := Final(start, steps, Calm);
    var key, linked := s.copiers[w], Next(s, Link(w));
    RunKeepsInv(start, steps);
    if CanLink(s, key) {
      LinkKeepsInv(s, linked, key);
      forall more: seq<Step> | Runs(linked, more, Calm) ensures Safe(Final(linked, more, Calm)) {
        RunKeepsInv(linked, more);
      }
    } else if key !in s.blobs {
      assert key in linked.refs;
      assert Runs(linked, [], Calm) && !Safe(Final(linked, [], Calm));
    } else if InWindow(s, key) {
      var x :| x in s.sweepers && s.sweepers[x].Aged? && s.sweepers[x].key == key;
      DeletedUnderReference(linked, x);
    } else {
      var x :| x in s.sweepers && s.sweepers[x].Checked? && s.sweepers[x].key == key && s.sweepers[x].cutoff > s.blobs[key];
      AgedUnderReference(linked, x);
    }
  }
}
