/**
 Permanent removal of a project: the volume, the search index when search is configured, the git repository
 when git is enabled, and the project record last. Any step may fail, having wiped any part of its store; the
 volume and the repository may also answer success with items still there, as the errors of removing their files
 and objects are dropped.
 */
module ProjectRemoval {
  import opened Common

  type Item = string

  datatype Config = Config(search: bool, git: bool)

  /** What the four stores hold of one project. */
  datatype Stores = Stores(volume: set<Item>, index: set<Item>, repository: set<Item>, record: bool)

  datatype StoreName = Volume | Index | Repository | Record

  /** How one wipe goes: whether it reports a failure, and which items it cannot remove. */
  datatype Wipe = Wipe(fails: bool, stuck: set<Item>)

  /** How one removal goes. */
  datatype Fault = Fault(volume: Wipe, index: Wipe, repository: Wipe, recordFails: bool)

  const CLEAN := Wipe(false, {})

  /** A wipe that reports a failure whenever it leaves something. */
  predicate Reports(w: Wipe) {
    w.fails || w.stuck == {}
  }

  predicate AllReport(f: Fault) {
    Reports(f.volume) && Reports(f.repository)
  }

  predicate Fails(store: StoreName, c: Config, f: Fault) {
    match store
    case Volume => f.volume.fails
    case Index => c.search && f.index.fails
    case Repository => c.git && f.repository.fails
    case Record => f.recordFails
  }

  predicate NoneFails(c: Config, f: Fault) {
    !Fails(Volume, c, f) && !Fails(Index, c, f) && !Fails(Repository, c, f) && !Fails(Record, c, f)
  }

  /** Nothing of the project is left in a store that this deployment has. */
  predicate StoresEmpty(s: Stores, c: Config) {
    s.volume == {} && (c.search ==> s.index == {}) && (c.git ==> s.repository == {})
  }

  /** The state one removal without failure leaves. */
  function CleanRemoval(s: Stores, c: Config): Stores {
    Stores({}, if c.search then {} else s.index, if c.git then {} else s.repository, false)
  }

  predicate Shrinks(s: Stores, t: Stores) {
    t.volume <= s.volume && t.index <= s.index && t.repository <= s.repository && (t.record ==> s.record)
  }

  /** Everything the volume and the repository hold can be removed. */
  predicate NothingStuck(s: Stores, c: Config, f: Fault) {
    s.volume * f.volume.stuck == {} && (c.git ==> s.repository * f.repository.stuck == {})
  }

  class Project {
    var stores: Stores
    const config: Config

    constructor (stores: Stores, config: Config)
      ensures this.stores == stores && this.config == config
    {
      this.stores, this.config := stores, config;
    }

    method RemoveProject(f: Fault) returns (r: Result<(), StoreName>)
      modifies this`stores
      ensures Attempt(old(stores), config, f, stores, r)
      ensures r == if f.volume.fails then Err(Volume)
                   else if config.search && f.index.fails then Err(Index)
                   else if config.git && f.repository.fails then Err(Repository)
                   else if f.recordFails then Err(Record)
                   else Ok(())
      ensures stores.record == if r.Ok? then false else old(stores).record
      ensures r == Err(Volume) ==> stores.index == old(stores).index
      ensures r == Err(Volume) || r == Err(Index) ==> stores.repository == old(stores).repository
    {
      stores := stores.(volume := stores.volume * f.volume.stuck);
      if f.volume.fails {
        return Err(Volume);
      }
      if config.search {
        stores := stores.(index := if f.index.fails then stores.index * f.index.stuck else {});
        if f.index.fails {
          return Err(Index);
        }
      }
      if config.git {
        stores := stores.(repository := stores.repository * f.repository.stuck);
        if f.repository.fails {
          return Err(Repository);
        }
      }
      if f.recordFails {
        return Err(Record);
      }
      stores := stores.(record := false);
      r := Ok(());
    }

    /**
     Removals repeated until one succeeds or the faults run out, as the sweep repeats them cycle after cycle;
     `before` is what the stores held when the last one started.
     */
    method RemoveWithRetries(faults: seq<Fault>) returns (ok: bool, tries: nat, ghost before: Stores)
      modifies this`stores
      ensures tries <= |faults| && (!ok ==> tries == |faults|)
      ensures !ok ==> stores.record == old(stores).record && Shrinks(old(stores), stores)
      ensures ok ==>
        && tries > 0 && Attempts(old(stores), config, faults[..tries - 1], before)
        && Attempt(before, config, faults[tries - 1], stores, Ok(()))
        && !stores.record
        && (StoresEmpty(stores, config) <==> NothingStuck(before, config, faults[tries - 1]))
        && (stores == CleanRemoval(old(stores), config) <==> NothingStuck(before, config, faults[tries - 1]))
      ensures (forall f :: f in faults ==> AllReport(f)) ==>
        && (ok ==> stores == CleanRemoval(old(stores), config))
        && (old(stores).record && !stores.record ==> StoresEmpty(stores, config))
    {
      ok := false;
      tries := 0;
      before := stores;
      while tries < |faults|
        invariant tries <= |faults|
        invariant Attempts(old(stores), config, faults[..tries], stores)
      {
        before := stores;
        var r := RemoveProject(faults[tries]);
        if r.Ok? {
          SuccessEmptiesIff(old(stores), config, faults[..tries], before, faults[tries], stores);
          return true, tries + 1, before;
        }
        AttemptsAppend(old(stores), config, faults[..tries], before, faults[tries], stores, r);
        assert faults[..tries + 1] == faults[..tries] + [faults[tries]];
        tries := tries + 1;
      }
      FailedAttemptsKeepTheRecord(old(stores), config, faults[..tries], stores);
      assert faults[..tries] == faults;
    }
  }

  /** What one removal promises: success leaves nothing but what was stuck, failure keeps the record. */
  ghost predicate Attempt(s: Stores, c: Config, f: Fault, t: Stores, r: Result<(), StoreName>) {
    && Shrinks(s, t)
    && (!c.search ==> t.index == s.index) && (!c.git ==> t.repository == s.repository)
    && (r.Ok? ==>
          && !t.record && t.volume == s.volume * f.volume.stuck
          && (c.search ==> t.index == {}) && (c.git ==> t.repository == s.repository * f.repository.stuck))
    && (r.Err? ==> t.record == s.record && Fails(r.error, c, f))
    && (r.Ok? <==> NoneFails(c, f))
  }

  /** A run of failed removals. */
  ghost predicate Attempts(s: Stores, c: Config, faults: seq<Fault>, t: Stores)
    decreases |faults|
  {
    if faults == [] then t == s
    else
      var front, last := faults[..|faults| - 1], faults[|faults| - 1];
      exists mid, r :: Attempts(s, c, front, mid) && Attempt(mid, c, last, t, r) && r.Err?
  }

  lemma AttemptsAppend(s: Stores, c: Config, faults: seq<Fault>, mid: Stores, f: Fault, t: Stores, r: Result<(), StoreName>)
    requires Attempts(s, c, faults, mid) && Attempt(mid, c, f, t, r) && r.Err?
    ensures Attempts(s, c, faults + [f], t)
  {
    assert (faults + [f])[..|faults + [f]| - 1] == faults;
  }

  /** However many removals failed and wherever, the record is still there and nothing grew. */
  lemma {:induction false} FailedAttemptsKeepTheRecord(s: Stores, c: Config, faults: seq<Fault>, t: Stores)
    requires Attempts(s, c, faults, t)
    ensures t.record == s.record && Shrinks(s, t)
    ensures CleanRemoval(t, c) == CleanRemoval(s, c)
    decreases |faults|
  {
    if faults != [] {
      var mid, r :| Attempts(s, c, faults[..|faults| - 1], mid) && Attempt(mid, c, faults[|faults| - 1], t, r) && r.Err?;
      FailedAttemptsKeepTheRecord(s, c, faults[..|faults| - 1], mid);
    }
  }

  /**
   Once the record is gone the stores are empty, and as one clean removal from the start would have left them,
   if and only if the removal that succeeded found nothing it could not remove.
   */
  lemma SuccessEmptiesIff(s: Stores, c: Config, faults: seq<Fault>, mid: Stores, f: Fault, t: Stores)
    requires Attempts(s, c, faults, mid) && Attempt(mid, c, f, t, Ok(()))
    ensures !t.record
    ensures StoresEmpty(t, c) <==> NothingStuck(mid, c, f)
    ensures t == CleanRemoval(s, c) <==> NothingStuck(mid, c, f)
    ensures AllReport(f) ==> NothingStuck(mid, c, f)
  {
    FailedAttemptsKeepTheRecord(s, c, faults, mid);
  }

  /** One file of the volume that cannot be removed: the removal succeeds, the record goes and the file stays. */
  lemma StuckFileOutlivesTheRecord(c: Config, file: Item)
    ensures var s := Stores({file}, {}, {}, true);
            var left := Stores({file}, {}, {}, false);
            && Attempt(s, c, Fault(Wipe(false, {file}), CLEAN, CLEAN, false), left, Ok(()))
            && !left.record && !StoresEmpty(left, c)
  {
    assert {file} * {file} == {file};
  }
}
