/**
 The file sweep: every live file not accessed within the retention period is moved into the
 volume's trash, one file at a time, each move free to fail on its own.
 */
module FileSweep {
  import opened Common

  const MAX_RETRIES: nat := 50

  datatype Node = File(size: nat, atime: int) | Dir

  type Tree = map<Path, Node>

  datatype TrashEntry = TrashEntry(originalPath: Path, size: nat)

  /** The paths whose trash directory cannot be made, and the rename attempts that fail for another reason than a taken name. */
  datatype Faults = Faults(mkdirs: set<Path>, renames: set<(Path, Path)>)

  const NO_FAULTS := Faults({}, {})

  datatype Error = ConfigUnreadable | ListUnreadable

  function TrimLeft(s: string): string {
    if s != "" && s[0] == '/' then TrimLeft(s[1..]) else s
  }

  function TrimRight(s: string): string {
    if s != "" && s[|s| - 1] == '/' then TrimRight(s[..|s| - 1]) else s
  }

  function Trim(s: string): string {
    TrimRight(TrimLeft(s))
  }

  ghost predicate AllSlashes(s: string) {
    forall i :: 0 <= i < |s| ==> s[i] == '/'
  }

  /** Trimming leaves what stands between the leading and the trailing slashes. */
  lemma TrimInPlainTerms(lead: string, core: string, tail: string)
    requires AllSlashes(lead) && AllSlashes(tail)
    requires core != "" ==> core[0] != '/' && core[|core| - 1] != '/'
    ensures Trim(lead + core + tail) == core
  {
    TrimLeftSkips(lead, core + tail);
    assert lead + core + tail == lead + (core + tail);
    if core == "" {
      assert core + tail == tail + "";
      TrimLeftSkips(tail, "");
    } else {
      TrimRightSkips(core, tail);
    }
  }

  lemma {:induction false} TrimLeftSkips(lead: string, s: string)
    requires AllSlashes(lead)
    ensures TrimLeft(lead + s) == TrimLeft(s)
    decreases |lead|
  {
    if lead == "" {
      assert lead + s == s;
    } else {
      assert (lead + s)[1..] == lead[1..] + s;
      TrimLeftSkips(lead[1..], s);
    }
  }

  lemma {:induction false} TrimRightSkips(s: string, tail: string)
    requires AllSlashes(tail)
    ensures TrimRight(s + tail) == TrimRight(s)
    decreases |tail|
  {
    if tail == "" {
      assert s + tail == s;
    } else {
      assert (s + tail)[..|s + tail| - 1] == s + tail[..|tail| - 1];
      TrimRightSkips(s, tail[..|tail| - 1]);
    }
  }

  /** The trash root is the configured directory between its slashes; a root of nothing but slashes holds every path. */
  lemma TrashRootInPlainTerms(lead: string, core: string, tail: string, p: Path)
    requires AllSlashes(lead) && AllSlashes(tail)
    requires core != "" ==> core[0] != '/' && core[|core| - 1] != '/'
    ensures Under(p, TrashRoot(lead + core + tail)) <==> if core == "" then "/" <= p else p == "/" + core || "/" + core + "/" <= p
  {
    TrimInPlainTerms(lead, core, tail);
    assert TrimRight("/") == "" by { assert TrimRight("") == ""; }
    assert core != "" ==> TrimRight("/" + core) == "/" + core;
  }

  /** Every slash becomes two underscores. */
  function Flatten(s: string): string {
    if s == "" then "" else (if s[0] == '/' then "__" else [s[0]]) + Flatten(s[1..])
  }

  lemma {:induction false} FlattenAtSlash(a: string, b: string)
    requires '/' !in a
    ensures Flatten(a) == a && Flatten(a + "/" + b) == a + "__" + Flatten(b)
    decreases |a|
  {
    if a == "" {
      assert a + "/" + b == "/" + b && ("/" + b)[1..] == b;
    } else {
      assert (a + "/" + b)[1..] == a[1..] + "/" + b;
      FlattenAtSlash(a[1..], b);
    }
  }

  function TrashRoot(dir: string): Path {
    "/" + Trim(dir)
  }

  /** The trash destination of `path` at `stamp` milliseconds. */
  function TrashPath(dir: string, stamp: nat, path: Path): Path {
    "/" + dir + "/" + Digits(stamp) + "__" + Flatten(Trim(path))
  }

  /** Whether `path` is `root` or below it. */
  predicate Under(path: Path, root: Path) {
    path == root || TrimRight(root) + "/" <= path
  }

  /** The n-th name tried for a destination. */
  function Name(dst: Path, n: nat): Path {
    if n == 0 then dst else dst + "~" + Digits(n)
  }

  /** The directory every trash path of a sweep is in: the trash directory as configured. */
  function Home(dir: string): Path {
    "/" + dir
  }

  function NextSlash(s: string): (n: nat)
    ensures n <= |s|
    ensures s != "" && s[0] != '/' ==> n > 0
  {
    if s == "" || s[0] == '/' then 0 else 1 + NextSlash(s[1..])
  }

  /** The directories made below `base` for the components of `s`, outermost first; empty components are skipped. */
  function Chain(base: Path, s: string): seq<Path>
    decreases |s|
  {
    if s == "" then []
    else if s[0] == '/' then Chain(base, s[1..])
    else
      var n := NextSlash(s);
      [base + "/" + s[..n]] + Chain(base + "/" + s[..n], s[n..])
  }

  /** One directory per component, each inside the one before; doubled, leading and trailing slashes make none. */
  lemma ChainByComponents(base: Path, component: string, rest: string)
    requires component != "" && '/' !in component
    ensures Chain(base, "") == [] && Chain(base, "/" + rest) == Chain(base, rest)
    ensures Chain(base, component) == [base + "/" + component]
    ensures Chain(base, component + "/" + rest) == [base + "/" + component] + Chain(base + "/" + component, rest)
  {
    var here := base + "/" + component;
    assert ("/" + rest)[1..] == rest;
    NextSlashAfter(component, "");
    assert component + "" == component && component[..|component|] == component;
    assert Chain(here, component[|component|..]) == [];
    var s := component + "/" + rest;
    NextSlashAfter(component, "/" + rest);
    assert s == component + ("/" + rest) && s[..|component|] == component && s[|component|..] == "/" + rest;
  }

  lemma {:induction false} NextSlashAfter(component: string, rest: string)
    requires '/' !in component && (rest != "" ==> rest[0] == '/')
    ensures NextSlash(component + rest) == |component|
    decreases |component|
  {
    if component != "" {
      assert (component + rest)[1..] == component[1..] + rest;
      NextSlashAfter(component[1..], rest);
    } else {
      assert component + rest == rest;
    }
  }

  /** No directory of the chain is longer than the trash directory itself. */
  lemma {:induction false} ChainIsShort(base: Path, s: string)
    ensures forall c :: c in Chain(base, s) ==> |c| <= |base| + |s| + if s != "" && s[0] != '/' then 1 else 0
    decreases |s|
  {
    if s != "" {
      if s[0] == '/' {
        ChainIsShort(base, s[1..]);
      } else {
        var n := NextSlash(s);
        NextSlashIsOne(s);
        ChainIsShort(base + "/" + s[..n], s[n..]);
      }
    }
  }

  lemma {:induction false} NextSlashIsOne(s: string)
    ensures NextSlash(s) < |s| ==> s[NextSlash(s)] == '/'
    decreases |s|
  {
    if s != "" && s[0] != '/' {
      NextSlashIsOne(s[1..]);
    }
  }

  /** A file stands where the trash directory, or a directory it has to be in, should be. */
  predicate Blocked(t: Tree, dir: string) {
    if Home(dir) in t then t[Home(dir)] != Dir
    else exists c :: c in Chain("", dir) && c in t && t[c] != Dir
  }

  /** The tree with the trash directory made. */
  function WithHome(t: Tree, dir: string): Tree {
    if Home(dir) in t then t
    else t + (map c | c in Chain("", dir) && c !in t :: Dir)
  }

  /** The trash directory is there. */
  predicate Ready(t: Tree, dir: string) {
    (Home(dir) in t && t[Home(dir)] == Dir) || (forall c :: c in Chain("", dir) ==> c in t && t[c] == Dir)
  }

  /** A path inside the trash directory as configured. */
  predicate InHome(dir: string, q: Path) {
    Home(dir) + "/" <= q && q != Home(dir) && q !in Chain("", dir)
  }

  lemma NamesAreInHome(dir: string, stamp: nat, path: Path, n: nat)
    ensures InHome(dir, Name(TrashPath(dir, stamp, path), n))
  {
    var dst := TrashPath(dir, stamp, path);
    assert Home(dir) + "/" <= dst <= Name(dst, n);
    ChainIsShort("", dir);
    assert |Name(dst, n)| > |dir| + 2;
  }

  /** The names tried for one destination are all different. */
  lemma NamesDiffer(dst: Path, m: nat, n: nat)
    requires Name(dst, m) == Name(dst, n)
    ensures m == n
  {
    if m > 0 && n > 0 {
      assert Name(dst, m)[|dst| + 1..] == Digits(m) && Name(dst, n)[|dst| + 1..] == Digits(n);
      DigitsInjective(m, n);
    } else {
      assert |Name(dst, 0)| == |dst|;
    }
  }

  predicate IsStale(t: Tree, p: Path, threshold: int, root: Path) {
    p in t && t[p].File? && t[p].atime < threshold && !Under(p, root)
  }

  function StalePaths(t: Tree, threshold: int, root: Path): set<Path> {
    set p | p in t && IsStale(t, p, threshold, root)
  }

  /** A listing of the stale files, each once. */
  ghost predicate IsStaleListing(stale: seq<Path>, t: Tree, threshold: int, root: Path) {
    && (forall i, j :: 0 <= i < j < |stale| ==> stale[i] != stale[j])
    && (forall p :: p in stale <==> IsStale(t, p, threshold, root))
  }

  /** What a sweep works on; `attached` when trash rows are kept. */
  datatype Store = Store(nodes: Tree, trash: map<Path, TrashEntry>, attached: bool)

  /** Where the purged files went, and where each trash path came from. */
  datatype Moves = Moves(to: map<Path, Path>, origin: map<Path, Path>)

  const NO_MOVES := Moves(map[], map[])

  function Add(m: Moves, src: Path, dst: Path): Moves {
    Moves(m.to[src := dst], m.origin[dst := src])
  }

  predicate OneToOne(m: Moves) {
    && (forall p :: p in m.to ==> m.to[p] in m.origin && m.origin[m.to[p]] == p)
    && (forall q :: q in m.origin ==> m.origin[q] in m.to && m.to[m.origin[q]] == q)
  }

  /**
   The tree once the files of `m` were moved: nothing else changed but the trash directory appearing. A purged
   file's own place is empty, or taken by another purged file.
   */
  ghost predicate TreeMoved(was: Tree, t: Tree, m: Moves, dir: string) {
    && (forall p :: p in m.to ==> p in was && was[p].File? && (p in t ==> p in m.origin))
    && (forall q :: q in m.origin ==> InHome(dir, q) && m.origin[q] != q && (q in was ==> q in m.to))
    && (forall q :: q in m.origin ==> m.origin[q] in was && q in t && t[q] == was[m.origin[q]])
    && (forall p :: p in was && p !in m.to ==> p in t && t[p] == was[p])
    && (forall p :: p in t ==> p in was || p in m.origin || (p in Chain("", dir) && t[p] == Dir))
    && (m.to != map[] ==> Ready(t, dir))
  }

  /** The trash rows once the files of `m` were moved: one new row per file, naming where it came from. */
  ghost predicate RowsAdded(was: Store, trash: map<Path, TrashEntry>, m: Moves) {
    && (forall q :: q in m.origin && was.attached ==>
          q !in was.trash && q in trash && trash[q] == TrashEntry(m.origin[q], Size(was.nodes, m.origin[q])))
    && (forall q :: q !in m.origin || !was.attached ==> (q in trash <==> q in was.trash) && (q in trash ==> trash[q] == was.trash[q]))
  }

  function Size(t: Tree, p: Path): nat {
    if p in t && t[p].File? then t[p].size else 0
  }

  /** Every purged file went to one of its 51 names. */
  ghost predicate NamedFrom(m: Moves, dir: string, stamps: Path -> nat) {
    forall p :: p in m.to ==> exists n: nat :: n <= MAX_RETRIES && m.to[p] == Name(TrashPath(dir, stamps(p), p), n)
  }

  lemma AddOneToOne(m: Moves, src: Path, dst: Path)
    requires OneToOne(m) && src !in m.to && dst !in m.origin
    ensures OneToOne(Add(m, src, dst))
  {}

  lemma AddNamedFrom(m: Moves, dir: string, stamps: Path -> nat, src: Path, dst: Path)
    requires NamedFrom(m, dir, stamps) && exists n: nat :: n <= MAX_RETRIES && dst == Name(TrashPath(dir, stamps(src), src), n)
    ensures NamedFrom(Add(m, src, dst), dir, stamps)
  {
    var next := Add(m, src, dst);
    forall p | p in next.to && p != src
      ensures exists n: nat :: n <= MAX_RETRIES && next.to[p] == Name(TrashPath(dir, stamps(p), p), n)
    {
      assert next.to[p] == m.to[p];
    }
  }

  lemma RenamedLookup(t: Tree, src: Path, dst: Path)
    requires src in t && dst !in t
    ensures forall p :: p in Renamed(t, src, dst) <==> p == dst || (p in t && p != src)
    ensures forall p :: p in t && p != src ==> Renamed(t, src, dst)[p] == t[p]
    ensures Renamed(t, src, dst)[dst] == t[src]
  {}

  /** Making the trash directory changes nothing once it is there. */
  lemma MadeKeepsTreeMoved(was: Tree, t: Tree, m: Moves, dir: string)
    requires OneToOne(m) && TreeMoved(was, t, m, dir) && !Blocked(t, dir)
    ensures TreeMoved(was, WithHome(t, dir), m, dir) && Ready(WithHome(t, dir), dir)
  {
    if m.to != map[] {
      assert WithHome(t, dir) == t;
    } else {
      NoOrigins(m);
    }
  }

  lemma NoOrigins(m: Moves)
    requires OneToOne(m) && m.to == map[]
    ensures m.origin == map[]
  {}

  lemma MoveOneInTree(was: Tree, t: Tree, m: Moves, dir: string, src: Path, dst: Path)
    requires OneToOne(m) && TreeMoved(was, t, m, dir) && Ready(t, dir)
    requires src in was && was[src].File? && src !in m.to
    requires dst !in t && InHome(dir, dst)
    ensures src in t && dst !in m.origin
    ensures TreeMoved(was, Renamed(t, src, dst), Add(m, src, dst), dir)
  {
    RenamedLookup(t, src, dst);
  }

  /** What blocks the trash directory during a sweep blocked it from the start. */
  lemma BlockedFromTheStart(was: Tree, t: Tree, m: Moves, dir: string)
    requires OneToOne(m) && TreeMoved(was, t, m, dir) && Blocked(t, dir)
    ensures Blocked(was, dir)
  {}

  lemma MoveOneRow(was: Store, trash: map<Path, TrashEntry>, m: Moves, src: Path, dst: Path)
    requires RowsAdded(was, trash, m) && dst !in m.origin && (was.attached ==> dst !in trash)
    ensures RowsAdded(was, if was.attached then trash[dst := TrashEntry(src, Size(was.nodes, src))] else trash, Add(m, src, dst))
  {}

  class VolumeClient {
    var nodes: Tree
    var trash: map<Path, TrashEntry>
    const attached: bool

    function Contents(): Store
      reads this
    {
      Store(nodes, trash, attached)
    }

    constructor (nodes: Tree, trash: map<Path, TrashEntry>, attached: bool)
      ensures Contents() == Store(nodes, trash, attached)
    {
      this.nodes, this.trash, this.attached := nodes, trash, attached;
    }

    /** Makes the trash directory and what it has to be in, tolerating directories already there; nothing when it cannot. */
    method Makedirs(dir: string, fails: bool) returns (ok: bool)
      modifies this`nodes
      ensures ok <==> !fails && !Blocked(old(nodes), dir)
      ensures nodes == if ok then WithHome(old(nodes), dir) else old(nodes)
    {
      if fails {
        return false;
      }
      if Home(dir) in nodes {
        return nodes[Home(dir)] == Dir;
      }
      var made := nodes;
      var chain := Chain("", dir);
      for i := 0 to |chain|
        invariant forall c :: c in made <==> c in nodes || c in chain[..i]
        invariant forall c :: c in made ==> made[c] == if c in nodes then nodes[c] else Dir
        invariant forall c :: c in chain[..i] && c in nodes ==> nodes[c] == Dir
      {
        var current := chain[i];
        assert chain[..i + 1] == chain[..i] + [current];
        if current !in made {
          made := made[current := Dir];
        } else if made[current] != Dir {
          return false;
        }
      }
      assert chain[..|chain|] == chain;
      assert made == WithHome(nodes, dir);
      nodes := made;
      ok := true;
    }

    /**
     Tries the bare destination, then its suffixed names up to ~50, moving on only from a name that is taken. A
     trash row standing at a free name fails the whole move, which then ends the attempts.
     */
    method RenameWithCollisionRetry(src: Path, dst: Path, faults: Faults) returns (r: Option<Path>)
      requires src in nodes && nodes[src].File?
      modifies this`nodes, this`trash
      ensures r.None? ==> Contents() == old(Contents()) && NoName(Contents(), src, dst, faults)
      ensures r.Some? ==> exists n: nat :: n <= MAX_RETRIES && r.value == Name(dst, n)
      ensures r.Some? <==> exists n: nat ::
        && n <= 50 && Name(dst, n) !in old(nodes) && !(attached && Name(dst, n) in old(trash))
        && forall k: nat :: k <= n ==> (src, Name(dst, k)) !in faults.renames && (k < n ==> Name(dst, k) in old(nodes))
      ensures r.Some? ==> r.value == dst || exists n: nat :: 1 <= n <= 50 && r.value == dst + "~" + Digits(n)
      ensures r.Some? ==>
        && r.value !in old(nodes) && (attached ==> r.value !in old(trash))
        && nodes == Renamed(old(nodes), src, r.value)
        && trash == if attached then old(trash)[r.value := TrashEntry(src, old(nodes)[src].size)] else old(trash)
    {
      var n: nat := 0;
      while n <= MAX_RETRIES
        invariant n <= MAX_RETRIES + 1
        invariant Contents() == old(Contents())
        invariant forall k: nat :: k < n ==> Name(dst, k) in nodes && (src, Name(dst, k)) !in faults.renames
      {
        var to := Name(dst, n);
        if (src, to) in faults.renames {
          return None;
        }
        if to !in nodes {
          if attached && to in trash {
            return None;
          }
          var node := nodes[src];
          nodes := (nodes - {src})[to := node];
          if attached {
            trash := trash[to := TrashEntry(src, node.size)];
          }
          assert to == Name(dst, n) && (n > 0 ==> to == dst + "~" + Digits(n));
          return Some(to);
        }
        n := n + 1;
      }
      r := None;
    }

    /** One file of the sweep: its directory, then its rename; None when either fails. */
    method SweepOne(src: Path, dst: Path, dir: string, faults: Faults) returns (r: Option<Path>)
      requires src in nodes && nodes[src].File?
      modifies this`nodes, this`trash
      ensures Outcome(old(Contents()), Contents(), src, dst, dir, faults, r)
    {
      var made := Makedirs(dir, src in faults.mkdirs);
      if !made {
        return None;
      }
      r := RenameWithCollisionRetry(src, dst, faults);
    }

    /** The files last accessed before `threshold` and outside `root`, each once, in any order. */
    method StaleFiles(threshold: int, root: Path) returns (list: seq<Path>)
      ensures IsStaleListing(list, nodes, threshold, root)
    {
      list := [];
      var rest := nodes.Keys;
      while rest != {}
        invariant rest <= nodes.Keys
        invariant forall i, j :: 0 <= i < j < |list| ==> list[i] != list[j]
        invariant forall p :: p in list <==> p !in rest && IsStale(nodes, p, threshold, root)
        decreases |rest|
      {
        var p :| p in rest;
        rest := rest - {p};
        if nodes[p].File? && nodes[p].atime < threshold && !Under(p, root) {
          list := list + [p];
        }
      }
    }

    /**
     Each file gets its own millisecond stamp; `listable` is whether the tree can be listed. `list` is what the sweep
     works through and `m` names where every purged file went.
     */
    method SweepProjectFiles(now: int, config: Option<PurgeConfig>, dir: string, listable: bool, stamps: Path -> nat, faults: Faults)
        returns (r: Result<nat, Error>, ghost list: seq<Path>, ghost m: Moves)
      modifies this`nodes, this`trash
      ensures r.Err? <==>
        || config.None?
        || (config.value.autopurgeEnabled && config.value.useInternalPurge && config.value.fileRetentionDays.Some? && !listable)
      ensures r.Ok? && config.value.autopurgeEnabled && config.value.useInternalPurge && config.value.fileRetentionDays.Some? ==>
        && Swept(old(Contents()), Contents(), m, list, dir, stamps, faults) && r.value == |m.to|
        && (forall i, j :: 0 <= i < j < |list| ==> list[i] != list[j])
        && (forall p :: p in m.to ==> p in list)
        && forall p :: p in list <==>
             && p in old(nodes) && old(nodes)[p].File?
             && now - old(nodes)[p].atime > config.value.fileRetentionDays.value * 86_400_000_000
             && !Under(p, TrashRoot(dir))
      ensures r.Err? || !config.value.autopurgeEnabled || !config.value.useInternalPurge || config.value.fileRetentionDays.None? ==>
        Contents() == old(Contents()) && list == [] && m == NO_MOVES && (r.Ok? ==> r.value == 0)
      ensures SumBy(nodes, Bytes) == SumBy(old(nodes), Bytes)
    {
      list, m := [], NO_MOVES;
      if config.None? {
        return Err(ConfigUnreadable), list, m;
      }
      if !config.value.autopurgeEnabled || !config.value.useInternalPurge {
        return Ok(0), list, m;
      }
      if config.value.fileRetentionDays.None? {
        return Ok(0), list, m;
      }
      if !listable {
        return Err(ListUnreadable), list, m;
      }
      var stale := StaleFiles(now - config.value.fileRetentionDays.value * MICROS_PER_DAY, TrashRoot(dir));
      var purged;
      purged, m := SweepStale(stale, dir, stamps, faults);
      r, list := Ok(purged), stale;
    }

    /** The loop over the stale files. */
    method SweepStale(list: seq<Path>, dir: string, stamps: Path -> nat, faults: Faults) returns (purged: nat, ghost m: Moves)
      requires forall i, j :: 0 <= i < j < |list| ==> list[i] != list[j]
      requires forall p :: p in list ==> p in nodes && nodes[p].File?
      modifies this`nodes, this`trash
      ensures Swept(old(Contents()), Contents(), m, list, dir, stamps, faults)
      ensures purged == |m.to|
      ensures SumBy(nodes, Bytes) == SumBy(old(nodes), Bytes)
    {
      m := NO_MOVES;
      purged := 0;
      ghost var was := Contents();
      NothingSwept(was, dir, stamps, faults);
      assert list[..0] == [];
      for i := 0 to |list|
        invariant Swept(was, Contents(), m, list[..i], dir, stamps, faults)
        invariant purged == |m.to|
        invariant SumBy(nodes, Bytes) == SumBy(was.nodes, Bytes)
      {
        var src := list[i];
        ghost var before := Contents();
        NotYetMoved(was, before, m, dir, list, i);
        var done := SweepOne(src, TrashPath(dir, stamps(src), src), dir, faults);
        SweptOne(was, before, Contents(), m, list, i, dir, stamps, faults, done);
        if done.None? {
          continue;
        }
        m := Add(m, src, done.value);
        purged := purged + 1;
      }
      assert list[..|list|] == list;
    }
  }

  /** Why no name of `dst` could be taken: a rename failed, a trash row stood at a free name, or every name is taken. */
  ghost predicate NoName(now: Store, src: Path, dst: Path, faults: Faults) {
    || (exists n: nat :: n <= MAX_RETRIES && (src, Name(dst, n)) in faults.renames)
    || (exists n: nat :: n <= MAX_RETRIES && RowWithoutNode(now, Name(dst, n)))
    || (forall n: nat :: n <= MAX_RETRIES ==> Name(dst, n) in now.nodes)
  }

  predicate RowWithoutNode(now: Store, q: Path) {
    now.attached && q in now.trash && q !in now.nodes
  }

  /**
   Why a stale file can still be at its path: its directory or a rename failed, a file stands where the trash
   directory should be, a trash row stood at a name with no node, or each of its 51 names was taken from the start
   or given to another purged file.
   */
  ghost predicate LeftBehind(was: Store, m: Moves, p: Path, dir: string, stamps: Path -> nat, faults: Faults) {
    var dst := TrashPath(dir, stamps(p), p);
    || p in faults.mkdirs
    || Blocked(was.nodes, dir)
    || (exists n: nat :: n <= MAX_RETRIES && (p, Name(dst, n)) in faults.renames)
    || (exists n: nat :: n <= MAX_RETRIES && StaleRow(was, m, Name(dst, n)))
    || (forall n: nat :: n <= MAX_RETRIES ==> Taken(was.nodes, m, Name(dst, n)))
  }

  /** A row of before the sweep at a name whose node was not there, or was purged from it. */
  predicate StaleRow(was: Store, m: Moves, q: Path) {
    was.attached && q in was.trash && (q !in was.nodes || q in m.to)
  }

  predicate Taken(was: Tree, m: Moves, q: Path) {
    q in was || q in m.origin
  }

  /** Every file of `done` went to one of its names or has a reason to be left behind. */
  ghost predicate Accounted(was: Store, m: Moves, done: seq<Path>, dir: string, stamps: Path -> nat, faults: Faults) {
    && OneToOne(m) && NamedFrom(m, dir, stamps)
    && (forall p :: p in m.to ==> p in done)
    && (forall p :: p in done && p !in m.to ==> LeftBehind(was, m, p, dir, stamps, faults))
  }

  /** Where the sweep stands once the files of `done` had their turn. */
  ghost predicate Swept(was: Store, now: Store, m: Moves, done: seq<Path>, dir: string, stamps: Path -> nat, faults: Faults) {
    && Accounted(was, m, done, dir, stamps, faults) && TreeMoved(was.nodes, now.nodes, m, dir)
    && RowsAdded(was, now.trash, m) && now.attached == was.attached
  }

  /** What one file's turn does to the tree and the trash rows. */
  ghost predicate Outcome(was: Store, now: Store, src: Path, dst: Path, dir: string, faults: Faults, r: Option<Path>) {
    && now.attached == was.attached
    && if r.None? then
         && now.trash == was.trash
         && if src in faults.mkdirs || Blocked(was.nodes, dir) then now.nodes == was.nodes
            else now.nodes == WithHome(was.nodes, dir) && NoName(now, src, dst, faults)
       else
         var made := WithHome(was.nodes, dir);
         && !Blocked(was.nodes, dir)
         && (exists n: nat :: n <= MAX_RETRIES && r.value == Name(dst, n))
         && r.value !in made && src in made && (was.attached ==> r.value !in was.trash)
         && now.nodes == Renamed(made, src, r.value)
         && now.trash == if was.attached then was.trash[r.value := TrashEntry(src, Size(made, src))] else was.trash
  }

  lemma NothingSwept(was: Store, dir: string, stamps: Path -> nat, faults: Faults)
    ensures Swept(was, was, NO_MOVES, [], dir, stamps, faults)
  {}

  lemma NotYetMoved(was: Store, t: Store, m: Moves, dir: string, list: seq<Path>, i: nat)
    requires i < |list| && TreeMoved(was.nodes, t.nodes, m, dir) && list[i] in was.nodes
    requires forall j, k :: 0 <= j < k < |list| ==> list[j] != list[k]
    requires forall p :: p in m.to ==> p in list[..i]
    ensures list[i] !in list[..i] && list[i] !in m.to && list[i] in t.nodes && t.nodes[list[i]] == was.nodes[list[i]]
  {}

  /** One more file of the list had its turn. */
  lemma SweptOne(was: Store, t: Store, next: Store, m: Moves, list: seq<Path>, i: nat, dir: string, stamps: Path -> nat,
                 faults: Faults, r: Option<Path>)
    requires i < |list| && list[i] in was.nodes && was.nodes[list[i]].File?
    requires forall j, k :: 0 <= j < k < |list| ==> list[j] != list[k]
    requires Swept(was, t, m, list[..i], dir, stamps, faults)
    requires Outcome(t, next, list[i], TrashPath(dir, stamps(list[i]), list[i]), dir, faults, r)
    ensures r.None? ==> Swept(was, next, m, list[..i + 1], dir, stamps, faults)
    ensures r.Some? ==>
      && Swept(was, next, Add(m, list[i], r.value), list[..i + 1], dir, stamps, faults)
      && |Add(m, list[i], r.value).to| == |m.to| + 1
    ensures SumBy(next.nodes, Bytes) == SumBy(t.nodes, Bytes)
  {
    var src := list[i];
    TurnKeepsBytes(t, next, src, TrashPath(dir, stamps(src), src), dir, faults, r);
    NotYetMoved(was, t, m, dir, list, i);
    assert list[..i + 1] == list[..i] + [src];
    if r.None? {
      SweptFailure(was, t, next, m, list[..i], dir, stamps, faults, src);
    } else {
      SweptMove(was, t, next, m, list[..i], dir, stamps, faults, src, r.value);
    }
  }

  /** A name in the tree is there from the start or by a move. */
  lemma NameInTreeIsTaken(was: Tree, t: Tree, m: Moves, dir: string, stamp: nat, path: Path, n: nat)
    requires TreeMoved(was, t, m, dir) && Name(TrashPath(dir, stamp, path), n) in t
    ensures Taken(was, m, Name(TrashPath(dir, stamp, path), n))
  {
    NamesAreInHome(dir, stamp, path, n);
  }

  /** A row at a name with no node is of before the sweep. */
  lemma RowIsStale(was: Store, now: Store, m: Moves, dir: string, q: Path)
    requires TreeMoved(was.nodes, now.nodes, m, dir) && RowsAdded(was, now.trash, m) && now.attached == was.attached
    requires RowWithoutNode(now, q)
    ensures StaleRow(was, m, q)
  {}

  lemma SweptFailure(was: Store, t: Store, next: Store, m: Moves, done: seq<Path>, dir: string, stamps: Path -> nat,
                     faults: Faults, src: Path)
    requires Swept(was, t, m, done, dir, stamps, faults)
    requires Outcome(t, next, src, TrashPath(dir, stamps(src), src), dir, faults, None)
    ensures Swept(was, next, m, done + [src], dir, stamps, faults)
  {
    var dst := TrashPath(dir, stamps(src), src);
    if src !in faults.mkdirs {
      if Blocked(t.nodes, dir) {
        BlockedFromTheStart(was.nodes, t.nodes, m, dir);
      } else {
        MadeKeepsTreeMoved(was.nodes, t.nodes, m, dir);
        forall n: nat | Name(dst, n) in next.nodes ensures Taken(was.nodes, m, Name(dst, n)) {
          NameInTreeIsTaken(was.nodes, next.nodes, m, dir, stamps(src), src, n);
        }
        forall n: nat | RowWithoutNode(next, Name(dst, n)) ensures StaleRow(was, m, Name(dst, n)) {
          RowIsStale(was, next, m, dir, Name(dst, n));
        }
      }
    }
    assert LeftBehind(was, m, src, dir, stamps, faults) || src in m.to;
  }

  lemma SweptMove(was: Store, t: Store, next: Store, m: Moves, done: seq<Path>, dir: string, stamps: Path -> nat,
                  faults: Faults, src: Path, dst: Path)
    requires Swept(was, t, m, done, dir, stamps, faults)
    requires src in was.nodes && was.nodes[src].File? && src !in done
    requires Outcome(t, next, src, TrashPath(dir, stamps(src), src), dir, faults, Some(dst))
    ensures Swept(was, next, Add(m, src, dst), done + [src], dir, stamps, faults)
  {
    var made := WithHome(t.nodes, dir);
    var n: nat :| n <= MAX_RETRIES && dst == Name(TrashPath(dir, stamps(src), src), n);
    NamesAreInHome(dir, stamps(src), src, n);
    MadeKeepsTreeMoved(was.nodes, t.nodes, m, dir);
    MoveOneInTree(was.nodes, made, m, dir, src, dst);
    assert made[src] == was.nodes[src];
    AddOneToOne(m, src, dst);
    AddNamedFrom(m, dir, stamps, src, dst);
    MoveOneRow(was, t.trash, m, src, dst);
    MoveKeepsLeftBehind(was, m, done, dir, stamps, faults, src, dst);
  }

  /** A file left behind stays so: its names are only ever taken. */
  lemma MoveKeepsLeftBehind(was: Store, m: Moves, done: seq<Path>, dir: string, stamps: Path -> nat, faults: Faults, src: Path, dst: Path)
    requires forall p :: p in done && p !in m.to ==> LeftBehind(was, m, p, dir, stamps, faults)
    ensures forall p :: p in done + [src] && p !in Add(m, src, dst).to ==> LeftBehind(was, Add(m, src, dst), p, dir, stamps, faults)
  {
    forall p | p in done && p !in m.to ensures LeftBehind(was, Add(m, src, dst), p, dir, stamps, faults) {
      assert LeftBehind(was, m, p, dir, stamps, faults);
      assert forall q :: Taken(was.nodes, m, q) ==> Taken(was.nodes, Add(m, src, dst), q);
      assert forall q :: StaleRow(was, m, q) ==> StaleRow(was, Add(m, src, dst), q);
    }
  }

  // ---- what the sweep leaves behind

  /**
   After a sweep, whatever failed, a stale file is at its old path with its bytes and no new row names it, or it is
   at exactly one trash path with exactly one new row naming the old one: never both, never neither.
   */
  lemma EveryFileInExactlyOnePlace(was: Store, now: Store, m: Moves, dir: string, p: Path)
    requires OneToOne(m) && TreeMoved(was.nodes, now.nodes, m, dir) && RowsAdded(was, now.trash, m) && was.attached
    requires p in was.nodes && was.nodes[p].File?
    ensures p !in m.to ==>
      && p in now.nodes && now.nodes[p] == was.nodes[p] && p !in m.origin
      && forall q :: q in now.trash && q !in was.trash ==> now.trash[q].originalPath != p
    ensures p in m.to ==>
      var q := m.to[p];
      && q != p && InHome(dir, q) && q in now.nodes && now.nodes[q] == was.nodes[p]
      && q in now.trash && q !in was.trash && now.trash[q] == TrashEntry(p, was.nodes[p].size)
      && (forall r :: r in now.trash && r !in was.trash && now.trash[r].originalPath == p ==> r == q)
      && (p in now.nodes ==> p in m.origin && m.origin[p] != p)
  {}

  /** What no purged file is or was at stays as it was, and so does every old row; only directories of the trash appear. */
  lemma NothingElseChanges(was: Store, now: Store, m: Moves, dir: string, stamps: Path -> nat, list: seq<Path>, faults: Faults, p: Path)
    requires Swept(was, now, m, list, dir, stamps, faults)
    ensures p in was.nodes && p !in list ==> p in now.nodes && now.nodes[p] == was.nodes[p]
    ensures p in was.trash ==> p in now.trash && now.trash[p] == was.trash[p]
    ensures p in now.trash && p !in was.trash ==> now.trash[p].originalPath in list && p in now.nodes
    ensures p in now.nodes && p !in was.nodes ==>
      if now.nodes[p].Dir? then p in Chain("", dir)
      else p in m.origin && m.origin[p] in list && now.nodes[p] == was.nodes[m.origin[p]]
  {}

  /** Where a purged file stands: its stamp and its path without the leading slash, every inner slash doubled to underscores. */
  lemma PurgedFileStandsAt(m: Moves, dir: string, stamps: Path -> nat, core: string)
    requires NamedFrom(m, dir, stamps) && "/" + core in m.to
    requires core != "" && core[0] != '/' && core[|core| - 1] != '/'
    ensures var plain := "/" + dir + "/" + Digits(stamps("/" + core)) + "__" + Flatten(core);
            m.to["/" + core] == plain || exists n: nat :: 1 <= n <= 50 && m.to["/" + core] == plain + "~" + Digits(n)
  {
    var p := "/" + core;
    TrimInPlainTerms("/", core, "");
    assert "/" + core + "" == p;
    var n: nat :| n <= MAX_RETRIES && m.to[p] == Name(TrashPath(dir, stamps(p), p), n);
    if n > 0 {
      assert m.to[p] == TrashPath(dir, stamps(p), p) + "~" + Digits(n);
    }
  }

  /**
   An empty trash takes up to 51 stale files, whatever their names and stamps: with a plain directory name, no file
   standing at it, no row or node below it and nothing failing, every one of them is purged.
   */
  lemma EmptyTrashTakesThemAll(was: Store, now: Store, m: Moves, dir: string, stamps: Path -> nat, list: seq<Path>, p: Path)
    requires Swept(was, now, m, list, dir, stamps, NO_FAULTS)
    requires dir != "" && '/' !in dir && ("/" + dir in was.nodes ==> was.nodes["/" + dir] == Dir)
    requires forall q :: q in was.nodes || q in was.trash ==> !("/" + dir + "/" <= q)
    requires |list| <= 51 && p in list
    ensures p in m.to && "/" + dir in now.nodes && now.nodes["/" + dir] == Dir
  {
    if p !in m.to {
      EmptyTrashBlocksNothing(was, dir);
      EmptyTrashNamesTaken(was, m, dir, stamps, list, p);
      TakenNamesAreFewerThanFiles(m, list, p, TrashPath(dir, stamps(p), p));
    }
    EmptyTrashBlocksNothing(now, dir);
  }

  lemma EmptyTrashBlocksNothing(was: Store, dir: string)
    requires dir != "" && '/' !in dir
    ensures Blocked(was.nodes, dir) <==> "/" + dir in was.nodes && was.nodes["/" + dir] != Dir
    ensures Ready(was.nodes, dir) <==> "/" + dir in was.nodes && was.nodes["/" + dir] == Dir
  {
    ChainByComponents("", dir, "");
    assert "" + "/" + dir == Home(dir);
    assert Chain("", dir)[0] == Home(dir);
  }

  lemma EmptyTrashNamesTaken(was: Store, m: Moves, dir: string, stamps: Path -> nat, list: seq<Path>, p: Path)
    requires Accounted(was, m, list, dir, stamps, NO_FAULTS) && !Blocked(was.nodes, dir) && p in list && p !in m.to
    requires forall q :: q in was.nodes || q in was.trash ==> !("/" + dir + "/" <= q)
    ensures forall n: nat :: n <= MAX_RETRIES ==> Name(TrashPath(dir, stamps(p), p), n) in m.origin
  {
    var dst := TrashPath(dir, stamps(p), p);
    forall n: nat ensures Name(dst, n) !in was.nodes && Name(dst, n) !in was.trash {
      assert "/" + dir + "/" <= dst <= Name(dst, n);
    }
    assert LeftBehind(was, m, p, dir, stamps, NO_FAULTS);
    forall n: nat | n <= MAX_RETRIES ensures Name(dst, n) in m.origin {
      assert !StaleRow(was, m, Name(dst, n));
      assert Taken(was.nodes, m, Name(dst, n));
    }
  }

  lemma TakenNamesAreFewerThanFiles(m: Moves, list: seq<Path>, p: Path, dst: Path)
    requires OneToOne(m) && (forall q :: q in m.to ==> q in list) && p in list && p !in m.to
    requires forall n: nat :: n <= MAX_RETRIES ==> Name(dst, n) in m.origin
    ensures |list| > 51
  {
    var names := NamesBelow(dst, MAX_RETRIES + 1);
    NamesBelowSize(dst, MAX_RETRIES + 1);
    assert forall q :: q in names ==> q in m.origin;
    assert forall q, r :: q in names && r in names && m.origin[q] == m.origin[r] ==> q == r;
    DistinctValues(m.origin, names);
    var sources := ValuesAt(m.origin, names);
    var others := set q | q in list && q != p;
    SubsetSize(sources, others);
    ElementCount(list);
    assert (set q | q in list) == others + {p};
  }

  lemma {:induction false} ElementCount(list: seq<Path>)
    ensures |set q | q in list| <= |list|
    decreases |list|
  {
    if list != [] {
      ElementCount(list[1..]);
      assert list == [list[0]] + list[1..];
      assert (set q | q in list) == (set q | q in list[1..]) + {list[0]};
    }
  }

  function Bytes(n: Node): nat {
    if n.File? then n.size else 0
  }

  lemma RenameKeepsBytes(t: Tree, src: Path, dst: Path)
    requires src in t && dst !in t
    ensures SumBy(Renamed(t, src, dst), Bytes) == SumBy(t, Bytes)
  {
    SumSplit(t, Bytes, src);
    SumSplit(Renamed(t, src, dst), Bytes, dst);
    assert Renamed(t, src, dst) - {dst} == t - {src};
  }

  /** Directories appearing leave the bytes alone. */
  lemma {:induction false} DirsAddNoBytes(was: Tree, dirs: set<Path>)
    requires dirs !! was.Keys
    ensures SumBy(was + (map d | d in dirs :: Dir), Bytes) == SumBy(was, Bytes)
    decreases |dirs|
  {
    var all := was + (map d | d in dirs :: Dir);
    if dirs == {} {
      assert all == was;
    } else {
      var d :| d in dirs;
      DirsAddNoBytes(was, dirs - {d});
      assert all[d] == Dir && all - {d} == was + (map x | x in dirs - {d} :: Dir);
      SumSplit(all, Bytes, d);
    }
  }

  lemma HomeAddsNoBytes(t: Tree, dir: string)
    ensures SumBy(WithHome(t, dir), Bytes) == SumBy(t, Bytes)
  {
    if Home(dir) !in t {
      var dirs := set c | c in Chain("", dir) && c !in t;
      DirsAddNoBytes(t, dirs);
      assert WithHome(t, dir) == t + (map d | d in dirs :: Dir);
    }
  }

  /** One file's turn, moved or left, keeps the volume's total bytes. */
  lemma TurnKeepsBytes(was: Store, now: Store, src: Path, dst: Path, dir: string, faults: Faults, r: Option<Path>)
    requires Outcome(was, now, src, dst, dir, faults, r)
    ensures SumBy(now.nodes, Bytes) == SumBy(was.nodes, Bytes)
  {
    HomeAddsNoBytes(was.nodes, dir);
    if r.Some? {
      RenameKeepsBytes(WithHome(was.nodes, dir), src, r.value);
    }
  }

  /**
   The stale files of a rerun at the same time are exactly the ones the first sweep left behind, and, where the
   sweep does not exclude its own trash, the purged files themselves.
   */
  lemma RerunSeesExactlyTheRest(was: Tree, t: Tree, m: Moves, dir: string, threshold: int)
    requires OneToOne(m) && TreeMoved(was, t, m, dir)
    ensures StalePaths(t, threshold, TrashRoot(dir))
         == (StalePaths(was, threshold, TrashRoot(dir)) - m.to.Keys)
            + (set q | q in m.origin && was[m.origin[q]].atime < threshold && !Under(q, TrashRoot(dir)))
  {
    var root := TrashRoot(dir);
    forall q | q in m.origin ensures t[q] == was[m.origin[q]] && t[q].File? {
      assert m.origin[q] in m.to;
    }
    forall p | p in t && t[p].File? && p !in m.origin ensures p in was && p !in m.to && t[p] == was[p] {
      assert p in m.to ==> p in m.origin;
    }
  }

  // ---- a sweep in which nothing fails

  /** One of the names `p` may take. */
  predicate Candidate(dir: string, stamps: Path -> nat, p: Path, name: Path) {
    exists n :: 0 <= n <= MAX_RETRIES && Name(TrashPath(dir, stamps(p), p), n) == name
  }

  /** No file of the list stands at a name another one may take. */
  ghost predicate NamesUnlisted(list: seq<Path>, dir: string, stamps: Path -> nat) {
    forall p, q :: p in list && q in list ==> !Candidate(dir, stamps, p, q)
  }

  /** With no slash leading the trash directory the listing excludes every name the sweep may take. */
  lemma ExcludedNamesUnlisted(list: seq<Path>, dir: string, stamps: Path -> nat)
    requires forall p :: p in list ==> !Under(p, TrashRoot(dir))
    requires Trim(dir) == "" || dir[0] != '/'
    ensures NamesUnlisted(list, dir, stamps)
  {
    forall p, q | p in list && q in list ensures !Candidate(dir, stamps, p, q) {
      forall n: nat { TrashExcludedIffNoLeadingSlash(dir, stamps(p), p, n); }
    }
  }

  /** Nothing but a failing call can keep a file from the trash: every row has its node, no file is in the way. */
  ghost predicate InGoodOrder(was: Store, list: seq<Path>, dir: string, stamps: Path -> nat) {
    && !Blocked(was.nodes, dir)
    && NamesUnlisted(list, dir, stamps)
    && (was.attached ==> forall q :: q in was.trash ==> q in was.nodes)
  }

  /** With no failure a file is left behind only when each of its names is taken. */
  lemma LeftBehindNamesTaken(was: Store, m: Moves, list: seq<Path>, dir: string, stamps: Path -> nat, p: Path, name: Path)
    requires Accounted(was, m, list, dir, stamps, NO_FAULTS) && InGoodOrder(was, list, dir, stamps)
    requires p in list && p !in m.to && Candidate(dir, stamps, p, name)
    ensures Taken(was.nodes, m, name)
  {
    assert LeftBehind(was, m, p, dir, stamps, NO_FAULTS);
    forall n: nat | n <= MAX_RETRIES ensures !StaleRow(was, m, Name(TrashPath(dir, stamps(p), p), n)) {
      var q := Name(TrashPath(dir, stamps(p), p), n);
      assert Candidate(dir, stamps, p, q);
      assert q !in list;
    }
  }

  /** With no failure a file is purged as soon as one of its names is free and no other listed file may take it. */
  lemma OwnFreeNameSuffices(was: Store, m: Moves, list: seq<Path>, dir: string, stamps: Path -> nat, p: Path)
    requires Accounted(was, m, list, dir, stamps, NO_FAULTS) && InGoodOrder(was, list, dir, stamps)
    requires p in list && HasOwnFreeName(was.nodes, list, dir, stamps, p)
    ensures p in m.to
  {
    if p !in m.to {
      var name :| Candidate(dir, stamps, p, name) && name !in was.nodes && IsOwnName(list, dir, stamps, p, name);
      LeftBehindNamesTaken(was, m, list, dir, stamps, p, name);
      var q := m.origin[name];
      assert q in m.to && Candidate(dir, stamps, q, name);
    }
  }

  ghost predicate HasOwnFreeName(t: Tree, list: seq<Path>, dir: string, stamps: Path -> nat, p: Path) {
    exists name :: Candidate(dir, stamps, p, name) && name !in t && IsOwnName(list, dir, stamps, p, name)
  }

  predicate IsOwnName(list: seq<Path>, dir: string, stamps: Path -> nat, p: Path, name: Path) {
    forall q :: q in list && q != p ==> !Candidate(dir, stamps, q, name)
  }

  /**
   A rerun at the same time in which nothing fails, after a sweep with any failures: it purges no file but those the
   first sweep left behind, and every one of those that has a free name of its own.
   */
  lemma RerunPurgesTheRest(was: Store, mid: Store, end: Store, m: Moves, again: Moves, list: seq<Path>, rest: seq<Path>,
                           dir: string, stamps: Path -> nat, later: Path -> nat, faults: Faults, threshold: int)
    requires Trim(dir) == "" || dir[0] != '/'
    requires IsStaleListing(list, was.nodes, threshold, TrashRoot(dir)) && Swept(was, mid, m, list, dir, stamps, faults)
    requires IsStaleListing(rest, mid.nodes, threshold, TrashRoot(dir)) && Swept(mid, end, again, rest, dir, later, NO_FAULTS)
    requires InGoodOrder(mid, rest, dir, later)
    ensures forall p :: p in rest <==> p in list && p !in m.to
    ensures forall p :: p in again.to ==> p in list && p !in m.to
    ensures forall p :: p in list && p !in m.to && HasOwnFreeName(mid.nodes, rest, dir, later, p) ==> p in again.to
  {
    forall p ensures p in rest <==> p in list && p !in m.to {
      RestIsLeftBehind(was, mid, m, list, rest, dir, stamps, faults, threshold, p);
    }
    forall p | p in rest && HasOwnFreeName(mid.nodes, rest, dir, later, p) ensures p in again.to {
      OwnFreeNameSuffices(mid, again, rest, dir, later, p);
    }
  }

  lemma RestIsLeftBehind(was: Store, mid: Store, m: Moves, list: seq<Path>, rest: seq<Path>, dir: string, stamps: Path -> nat,
                         faults: Faults, threshold: int, p: Path)
    requires Trim(dir) == "" || dir[0] != '/'
    requires IsStaleListing(list, was.nodes, threshold, TrashRoot(dir)) && Swept(was, mid, m, list, dir, stamps, faults)
    requires IsStaleListing(rest, mid.nodes, threshold, TrashRoot(dir))
    ensures p in rest <==> p in list && p !in m.to
  {
    if p in m.origin {
      var q := m.origin[p];
      assert q in m.to && m.to[q] == p;
      var n: nat :| n <= MAX_RETRIES && p == Name(TrashPath(dir, stamps(q), q), n);
      TrashExcludedIffNoLeadingSlash(dir, stamps(q), q, n);
    }
  }

  /** The listed files sharing the trash path `dst`. */
  function Sharing(list: seq<Path>, dir: string, stamps: Path -> nat, dst: Path): set<Path> {
    set p | p in list && TrashPath(dir, stamps(p), p) == dst
  }

  /** The names of `dst` nothing stands at. */
  function FreeNames(was: Tree, dst: Path): set<Path> {
    set n | 0 <= n <= MAX_RETRIES && Name(dst, n) !in was :: Name(dst, n)
  }

  function NamesBelow(dst: Path, k: nat): set<Path> {
    set n | 0 <= n < k :: Name(dst, n)
  }

  /** Where nothing stands at any of them there are 51. */
  lemma FreshPathHasEveryName(was: Tree, dst: Path)
    requires forall n: nat :: n <= MAX_RETRIES ==> Name(dst, n) !in was
    ensures |FreeNames(was, dst)| == 51
  {
    assert FreeNames(was, dst) == NamesBelow(dst, MAX_RETRIES + 1);
    NamesBelowSize(dst, MAX_RETRIES + 1);
  }

  lemma {:induction false} NamesBelowSize(dst: Path, k: nat)
    ensures |NamesBelow(dst, k)| == k
    decreases k
  {
    if k > 0 {
      NamesBelowSize(dst, k - 1);
      OneMoreName(dst, k - 1);
    }
  }

  lemma OneMoreName(dst: Path, k: nat)
    ensures NamesBelow(dst, k + 1) == NamesBelow(dst, k) + {Name(dst, k)}
    ensures Name(dst, k) !in NamesBelow(dst, k)
  {
    if Name(dst, k) in NamesBelow(dst, k) {
      var n :| 0 <= n < k && Name(dst, n) == Name(dst, k);
      NamesDiffer(dst, n, k);
    }
  }

  /** The free names of `dst` that no file of another trash path went to. */
  function Available(was: Tree, m: Moves, list: seq<Path>, dir: string, stamps: Path -> nat, dst: Path): set<Path> {
    set q | q in FreeNames(was, dst) && (q in m.origin ==> m.origin[q] in Sharing(list, dir, stamps, dst))
  }

  /** A file purged from a shared trash path has one of its free names. */
  lemma MovedTakesFreeName(was: Store, m: Moves, list: seq<Path>, dir: string, stamps: Path -> nat, dst: Path, p: Path)
    requires Accounted(was, m, list, dir, stamps, NO_FAULTS) && InGoodOrder(was, list, dir, stamps)
    requires forall q :: q in m.origin && q in was.nodes ==> q in m.to
    requires p in m.to && p in Sharing(list, dir, stamps, dst)
    ensures m.to[p] in Available(was.nodes, m, list, dir, stamps, dst)
  {
    assert Candidate(dir, stamps, p, m.to[p]);
  }

  /**
   Of the files sharing one trash path, a sweep in which nothing fails purges all, or as many as that path has free
   names that no file of another trash path took.
   */
  lemma SharedTrashPathTakesWhatFits(was: Store, t: Tree, m: Moves, list: seq<Path>, dir: string, stamps: Path -> nat, dst: Path)
    requires Accounted(was, m, list, dir, stamps, NO_FAULTS) && InGoodOrder(was, list, dir, stamps)
    requires TreeMoved(was.nodes, t, m, dir)
    ensures var sharing := Sharing(list, dir, stamps, dst);
            |set p | p in sharing && p in m.to| == Min(|sharing|, |Available(was.nodes, m, list, dir, stamps, dst)|)
  {
    var sharing, free := Sharing(list, dir, stamps, dst), Available(was.nodes, m, list, dir, stamps, dst);
    var moved := set p | p in sharing && p in m.to;
    var names := ValuesAt(m.to, moved);
    NamesAreMany(m, moved);
    forall p | p in moved ensures m.to[p] in free {
      MovedTakesFreeName(was, m, list, dir, stamps, dst, p);
    }
    SubsetSize(names, free);
    SubsetSize(moved, sharing);
    if sharing <= moved {
      assert moved == sharing;
    } else {
      var p :| p in sharing && p !in m.to;
      forall name | name in free ensures name in names {
        LeftBehindNamesTaken(was, m, list, dir, stamps, p, name);
        assert m.origin[name] in moved;
      }
      SubsetSize(free, names);
    }
  }

  lemma NamesAreMany(m: Moves, moved: set<Path>)
    requires OneToOne(m) && forall p :: p in moved ==> p in m.to
    ensures |ValuesAt(m.to, moved)| == |moved|
  {
    assert forall p :: p in moved ==> m.origin[m.to[p]] == p;
    DistinctValues(m.to, moved);
  }

  lemma SubsetSize<T>(a: set<T>, b: set<T>)
    requires a <= b
    ensures |a| <= |b|
  {
    assert b == a + (b - a);
  }

  // ---- the trash directory has to be written without a leading slash

  lemma {:induction false} TrimRightPrefix(s: string)
    ensures TrimRight(s) + "/" <= s + "/"
    decreases |s|
  {
    if s != "" && s[|s| - 1] == '/' {
      TrimRightPrefix(s[..|s| - 1]);
      assert s + "/" == s[..|s| - 1] + "//";
      assert s[..|s| - 1] + "/" <= s + "/";
    }
  }

  lemma {:induction false} TrimLeftHead(s: string)
    ensures TrimLeft(s) != "" ==> TrimLeft(s)[0] != '/'
    decreases |s|
  {
    if s != "" && s[0] == '/' {
      TrimLeftHead(s[1..]);
    }
  }

  lemma {:induction false} TrimRightHead(s: string)
    ensures TrimRight(s) != "" ==> s != "" && TrimRight(s)[0] == s[0]
    decreases |s|
  {
    if s != "" && s[|s| - 1] == '/' {
      TrimRightHead(s[..|s| - 1]);
    }
  }

  /**
   The sweep excludes the directory with its slashes trimmed but writes destinations with the directory as
   configured, so what it purges is excluded from the next sweep exactly when no slash leads it, or nothing but
   slashes is configured and every path is excluded.
   */
  lemma TrashExcludedIffNoLeadingSlash(dir: string, stamp: nat, path: Path, n: nat)
    ensures Under(Name(TrashPath(dir, stamp, path), n), TrashRoot(dir)) <==> Trim(dir) == "" || dir[0] != '/'
  {
    var dst, root := Name(TrashPath(dir, stamp, path), n), TrashRoot(dir);
    assert TrashPath(dir, stamp, path) <= dst;
    if Trim(dir) == "" {
      assert TrimRight("/") == "" by { assert TrimRight("") == ""; }
      assert root == "/" && TrimRight(root) == "";
    } else {
      TrimLeftHead(dir);
      TrimRightHead(TrimLeft(dir));
      TrimRightTail(TrimLeft(dir));
      assert TrimRight(root) == root;
      if dir[0] == '/' {
        assert dst[1] == '/' && root[1] != '/';
      } else {
        assert TrimLeft(dir) == dir;
        TrimRightPrefix(dir);
        assert root + "/" == "/" + (TrimRight(dir) + "/");
        assert "/" + (dir + "/") <= dst;
      }
    }
  }

  lemma {:induction false} TrimRightTail(s: string)
    ensures TrimRight(s) != "" ==> TrimRight(s)[|TrimRight(s)| - 1] != '/'
    decreases |s|
  {
    if s != "" && s[|s| - 1] == '/' {
      TrimRightTail(s[..|s| - 1]);
    }
  }
}
