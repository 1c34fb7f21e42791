/**
 The node tree of one volume and the bytes it uses.

 A write either puts a file of a given size at a path or removes the path. Usage is the sum
 of the declared sizes of the files, each path counted once, and a directory counts nothing.
 */
module Volume {
  import opened Common

  datatype Node = File(size: nat) | Dir

  type Tree = map<Path, Node>

  datatype Change = Put(path: Path, size: nat) | Remove(path: Path)

  /** The size of the file currently at `p`, 0 when there is none. */
  function SizeAt(t: Tree, p: Path): nat {
    if p in t && t[p].File? then t[p].size else 0
  }

  function Bytes(n: Node): nat {
    if n.File? then n.size else 0
  }

  ghost function Usage(t: Tree): nat {
    SumBy(t, Bytes)
  }

  /** The size a change leaves at its path. */
  function NewSize(c: Change): nat {
    if c.Put? then c.size else 0
  }

  function ApplyOne(t: Tree, c: Change): Tree {
    if c.Put? then t[c.path := File(c.size)] else t - {c.path}
  }

  function Apply(t: Tree, changes: seq<Change>): Tree
    decreases |changes|
  {
    if changes == [] then t else Apply(ApplyOne(t, changes[0]), changes[1..])
  }

  function Paths(changes: seq<Change>): set<Path> {
    set c | c in changes :: c.path
  }

  lemma UsageSplit(t: Tree, p: Path)
    ensures Usage(t) == SizeAt(t, p) + Usage(t - {p})
  {
    SumSplit(t, Bytes, p);
  }

  /** Usage counts each file once, at its size, and a directory not at all. */
  lemma UsageInPlainTerms(t: Tree, p: Path, size: nat)
    ensures Usage(map[]) == 0
    ensures Usage(t[p := File(size)]) == size + Usage(t - {p})
    ensures Usage(t[p := Dir]) == Usage(t - {p})
  {
    UsageSplit(t[p := File(size)], p);
    UsageSplit(t[p := Dir], p);
    assert t[p := File(size)] - {p} == t - {p} && t[p := Dir] - {p} == t - {p};
  }

  /** After a list of writes a path holds what the last write to it left, and a path no write names is unchanged. */
  lemma {:induction false} LastWriteWins(t: Tree, before: seq<Change>, c: Change, after: seq<Change>, p: Path)
    requires forall d :: d in after ==> d.path != c.path
    ensures var end := Apply(t, before + [c] + after);
            && (c.Put? ==> c.path in end && end[c.path] == File(c.size))
            && (c.Remove? ==> c.path !in end)
            && ((forall d :: d in before + [c] + after ==> d.path != p) ==>
                  (p in end <==> p in t) && (p in t ==> end[p] == t[p]))
    decreases |before|
  {
    var all := before + [c] + after;
    if before == [] {
      assert all[1..] == after;
      ApplyReplaces(ApplyOne(t, c), after);
    } else {
      assert all[0] == before[0] && all[1..] == before[1..] + [c] + after;
      LastWriteWins(ApplyOne(t, before[0]), before[1..], c, after, p);
      assert all == [before[0]] + (before[1..] + [c] + after);
    }
  }

  lemma TakeFromUnion(a: Tree, b: Tree, p: Path)
    requires a.Keys !! b.Keys && p in a
    ensures Usage(a + b) == SizeAt(a, p) + Usage((a - {p}) + b)
  {
    UsageSplit(a + b, p);
    assert (a + b) - {p} == (a - {p}) + b;
  }

  lemma {:induction false} UsageUnion(a: Tree, b: Tree)
    requires a.Keys !! b.Keys
    ensures Usage(a + b) == Usage(a) + Usage(b)
    decreases |a|
  {
    if a == map[] {
      assert a + b == b;
    } else {
      var p :| p in a;
      UsageUnion(a - {p}, b);
      UsageSplit(a, p);
      TakeFromUnion(a, b, p);
    }
  }

  lemma UsageRestricts(t: Tree, ps: set<Path>)
    ensures Usage(t - ps) <= Usage(t)
    decreases |ps|
  {
    if ps == {} {
      assert t - ps == t;
    } else {
      var p :| p in ps;
      UsageRestricts(t - {p}, ps - {p});
      assert t - ps == (t - {p}) - (ps - {p});
      UsageSplit(t, p);
    }
  }

  /** A list of writes replaces what sits at its paths and touches nothing else. */
  lemma {:induction false} ApplyReplaces(t: Tree, changes: seq<Change>)
    ensures Apply(t, changes) == (t - Paths(changes)) + Apply(map[], changes)
    ensures Apply(map[], changes).Keys <= Paths(changes)
    decreases |changes|
  {
    if changes == [] {
      assert t - Paths(changes) == t;
    } else {
      var c, rest := changes[0], changes[1..];
      ApplyReplaces(ApplyOne(t, c), rest);
      ApplyReplaces(ApplyOne(map[], c), rest);
      PathsOfCons(c, rest);
      assert changes == [c] + rest;
      ApplyOneReplaces(t, c, Paths(rest), Apply(map[], rest));
    }
  }

  lemma PathsOfCons(c: Change, rest: seq<Change>)
    ensures Paths([c] + rest) == Paths(rest) + {c.path}
  {}

  lemma ApplyOneReplaces(t: Tree, c: Change, ps: set<Path>, after: Tree)
    ensures (ApplyOne(t, c) - ps) + after == (t - (ps + {c.path})) + ((ApplyOne(map[], c) - ps) + after)
  {}

  /** Usage after a list of writes: what they do not touch, plus what they leave behind. */
  lemma UsageAfter(t: Tree, changes: seq<Change>)
    ensures Usage(Apply(t, changes)) == Usage(t - Paths(changes)) + Usage(Apply(map[], changes))
  {
    ApplyReplaces(t, changes);
    UsageUnion(t - Paths(changes), Apply(map[], changes));
  }
}
