/** Value types and sequence helpers shared by every part of the model. */
module Common {
  type Path = string

  const SECONDS_PER_DAY := 86_400

  const MICROS_PER_SECOND := 1_000_000

  const MICROS_PER_DAY := SECONDS_PER_DAY * MICROS_PER_SECOND

  /** How one project's files and the project itself are retained. */
  datatype PurgeConfig = PurgeConfig(
    autopurgeEnabled: bool,
    useInternalPurge: bool,
    fileRetentionDays: Option<nat>,
    projectRetentionDays: Option<nat>
  )

  datatype Option<+T> = None | Some(value: T)

  datatype Result<+T, +E> = Ok(value: T) | Err(error: E)

  function Max(a: int, b: int): (m: int)
    ensures m >= a && m >= b && (m == a || m == b)
  {
    if a >= b then a else b
  }

  function Min(a: int, b: int): (m: int)
    ensures m <= a && m <= b && (m == a || m == b)
  {
    if a <= b then a else b
  }

  /** The decimal text of `n`. */
  function Digits(n: nat): (s: string)
    ensures |s| > 0 && forall c :: c in s ==> '0' <= c <= '9'
  {
    if n < 10 then ["0123456789"[n]] else Digits(n / 10) + ["0123456789"[n % 10]]
  }

  /** Two numbers never share a text. */
  lemma {:induction false} DigitsInjective(a: nat, b: nat)
    requires Digits(a) == Digits(b)
    ensures a == b
  {
    var x, y := Digits(a), Digits(b);
    assert x[|x| - 1] == "0123456789"[a % 10] && y[|y| - 1] == "0123456789"[b % 10];
    assert a % 10 == b % 10;
    if a >= 10 && b >= 10 {
      assert x[..|x| - 1] == Digits(a / 10) && y[..|y| - 1] == Digits(b / 10);
      DigitsInjective(a / 10, b / 10);
    }
  }

  /** The number a decimal text stands for. */
  function NumberOf(s: string): int {
    if s == "" then 0 else 10 * NumberOf(s[..|s| - 1]) + (s[|s| - 1] as int - '0' as int)
  }

  lemma {:induction false} DigitsRoundTrip(n: nat)
    ensures NumberOf(Digits(n)) == n && (n > 0 ==> Digits(n)[0] != '0')
    decreases n
  {
    assert forall d :: 0 <= d < 10 ==> "0123456789"[d] as int - '0' as int == d;
    if n >= 10 {
      DigitsRoundTrip(n / 10);
      assert Digits(n)[..|Digits(n)| - 1] == Digits(n / 10);
    }
  }

  /** The elements of `xs` satisfying `p`, in order. */
  function Filter<T(!new)>(xs: seq<T>, p: T -> bool): (ys: seq<T>)
    ensures |ys| <= |xs|
    ensures forall y :: y in ys <==> y in xs && p(y)
    ensures forall i :: 0 <= i < |ys| ==> ys[i] in xs && p(ys[i])
  {
    if xs == [] then []
    else
      var last := xs[|xs| - 1];
      var front := xs[..|xs| - 1];
      assert xs == front + [last];
      Filter(front, p) + if p(last) then [last] else []
  }

  lemma FilterAppends<T(!new)>(xs: seq<T>, x: T, p: T -> bool)
    ensures Filter(xs + [x], p) == Filter(xs, p) + if p(x) then [x] else []
  {}

  lemma {:induction false} FilterConcat<T(!new)>(xs: seq<T>, ys: seq<T>, p: T -> bool)
    ensures Filter(xs + ys, p) == Filter(xs, p) + Filter(ys, p)
    decreases |ys|
  {
    if ys == [] {
      assert xs + ys == xs;
    } else {
      var front, last := ys[..|ys| - 1], ys[|ys| - 1];
      assert xs + ys == (xs + front) + [last];
      FilterAppends(xs + front, last, p);
      FilterConcat(xs, front, p);
    }
  }

  lemma {:induction false} FilterAll<T(!new)>(xs: seq<T>, p: T -> bool)
    requires forall x :: x in xs ==> p(x)
    ensures Filter(xs, p) == xs
    decreases |xs|
  {
    if xs != [] {
      assert xs == xs[..|xs| - 1] + [xs[|xs| - 1]];
      FilterAll(xs[..|xs| - 1], p);
    }
  }

  lemma {:induction false} FilterNone<T(!new)>(xs: seq<T>, p: T -> bool)
    requires forall x :: x in xs ==> !p(x)
    ensures Filter(xs, p) == []
    decreases |xs|
  {
    if xs != [] {
      assert xs == xs[..|xs| - 1] + [xs[|xs| - 1]];
      FilterNone(xs[..|xs| - 1], p);
    }
  }

  /** All the parts one behind the other. */
  function Concat<T>(parts: seq<seq<T>>): seq<T> {
    if parts == [] then [] else Concat(parts[..|parts| - 1]) + parts[|parts| - 1]
  }

  lemma Regroup<T>(a: seq<T>, b: seq<T>, c: seq<T>)
    ensures (a + b) + c == a + (b + c)
  {}

  lemma {:induction false} ConcatCons<T>(first: seq<T>, rest: seq<seq<T>>)
    ensures Concat([first] + rest) == first + Concat(rest)
    decreases |rest|
  {
    if rest == [] {
      assert [first] + rest == [first] && Concat([first][..0]) == [];
    } else {
      var front, last := rest[..|rest| - 1], rest[|rest| - 1];
      assert ([first] + rest)[..|rest|] == [first] + front;
      ConcatCons(first, front);
    }
  }

  /** The entry at `src` under the key `dst`. */
  function Renamed<K, V>(m: map<K, V>, src: K, dst: K): map<K, V>
    requires src in m
  {
    (m - {src})[dst := m[src]]
  }

  function ValuesAt<K, V>(m: map<K, V>, keys: set<K>): set<V>
    requires forall k :: k in keys ==> k in m
  {
    set k | k in keys :: m[k]
  }

  /** Values that differ from key to key are as many as the keys. */
  lemma {:induction false} DistinctValues<K, V>(m: map<K, V>, keys: set<K>)
    requires forall k :: k in keys ==> k in m
    requires forall j, k :: j in keys && k in keys && m[j] == m[k] ==> j == k
    ensures |ValuesAt(m, keys)| == |keys|
    decreases |keys|
  {
    if keys != {} {
      var j :| j in keys;
      DistinctValues(m, keys - {j});
      assert ValuesAt(m, keys) == ValuesAt(m, keys - {j}) + {m[j]};
    }
  }

  /** The sum of `size` over the values of a map. */
  ghost function SumBy<K, V>(m: map<K, V>, size: V -> nat): nat {
    if m == map[] then 0
    else
      var k :| k in m;
      size(m[k]) + SumBy(m - {k}, size)
  }

  function SizeIn<K, V>(m: map<K, V>, size: V -> nat, k: K): nat {
    if k in m then size(m[k]) else 0
  }

  /** Any key can be taken out of the sum first. */
  lemma {:induction false} SumSplit<K, V>(m: map<K, V>, size: V -> nat, k: K)
    ensures SumBy(m, size) == SizeIn(m, size, k) + SumBy(m - {k}, size)
    decreases |m|
  {
    if k !in m {
      assert m - {k} == m;
    } else {
      var j :| j in m && SumBy(m, size) == size(m[j]) + SumBy(m - {j}, size);
      if j != k {
        assert (m - {j}) - {k} == (m - {k}) - {j};
        SumSplit(m - {j}, size, k);
        SumSplit(m - {k}, size, j);
      }
    }
  }
}
