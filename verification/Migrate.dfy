/**
 Offline migration of relational rows, table by table, between two deployments.

 A table has the columns its schema declares and the columns a later column migration added, each with a
 default. The copy names the declared columns only, binds every value to a numbered placeholder, and sends
 the rows in batches inside one transaction.
 */
module Migrate {
  import opened Common

  const BATCH_ROWS: nat := 100

  const VOLUME_ID := "volume_id"

  const SHA256 := "sha256"

  type Column = string

  type TableName = string

  datatype Value = Null | Text(text: string) | Number(number: int)

  type Row = map<Column, Value>

  type Db = map<TableName, seq<Row>>

  /** `added` maps each column of a column migration to its default; `children` are emptied by deleting every row. */
  datatype Table = Table(name: TableName, columns: seq<Column>, added: map<Column, Value>, children: set<TableName>)

  /** One copy: a whole table, or the rows of one volume; `counted` when both sides are counted afterwards. */
  datatype Job = Job(table: Table, volume: Option<string>, counted: bool)

  /** Why a migration stops: a copy, a count of either side, counts that differ, or a store in between. */
  datatype Error = CopyFailed | CountUnreadable | Incomplete(table: TableName) | StoreFailed

  /** What fails while one table is copied, if anything. */
  datatype CopyFault = NoFault | SelectFails | ClearFails | InsertFails(batch: nat) | CommitFails

  /** What fails around one copy: a store opened or read before it, the copy itself, or a count after it. */
  datatype JobFault = JobFault(store: bool, copy: CopyFault, count: bool)

  predicate InScope(r: Row, volume: Option<string>) {
    volume.None? || (VOLUME_ID in r && r[VOLUME_ID] == Text(volume.value))
  }

  function RowsOf(db: Db, table: TableName): seq<Row> {
    if table in db then db[table] else []
  }

  function Scope(rows: seq<Row>, volume: Option<string>): seq<Row> {
    Filter(rows, (r: Row) => InScope(r, volume))
  }

  function Outside(rows: seq<Row>, volume: Option<string>): seq<Row> {
    Filter(rows, (r: Row) => !InScope(r, volume))
  }

  predicate Distinct(columns: seq<Column>) {
    forall i, j :: 0 <= i < j < |columns| ==> columns[i] != columns[j]
  }

  predicate WellFormed(t: Table) {
    Distinct(t.columns) && forall c :: c in t.columns ==> c !in t.added
  }

  /** Every row has the columns of its table and no other. */
  predicate Fits(t: Table, rows: seq<Row>) {
    forall r :: r in rows ==> r.Keys == (set c | c in t.columns) + t.added.Keys
  }

  predicate ValidJob(j: Job, src: Db) {
    WellFormed(j.table) && Fits(j.table, RowsOf(src, j.table.name)) && j.table.name !in j.table.children
    && (j.volume.Some? ==> VOLUME_ID in j.table.columns && j.table.children == {})
  }

  /** The row an INSERT naming the declared columns makes: the bound values, defaults elsewhere. */
  function Inserted(t: Table, tuple: seq<Value>): Row
    requires |tuple| == |t.columns|
  {
    t.added + Bound(t.columns, tuple)
  }

  function Bound(columns: seq<Column>, tuple: seq<Value>): Row
    requires |tuple| == |columns|
  {
    if columns == [] then map[]
    else Bound(columns[..|columns| - 1], tuple[..|columns| - 1])[columns[|columns| - 1] := tuple[|columns| - 1]]
  }

  /** A plain copy of one row: its declared columns kept, the added ones at their default. */
  function Plain(t: Table, r: Row): Row {
    t.added + (map c | c in t.columns && c in r :: r[c])
  }

  function PlainAll(t: Table, rows: seq<Row>): seq<Row> {
    if rows == [] then [] else PlainAll(t, rows[..|rows| - 1]) + [Plain(t, rows[|rows| - 1])]
  }

  function Values(t: Table, r: Row): (tuple: seq<Value>)
    requires forall c :: c in t.columns ==> c in r
    ensures |tuple| == |t.columns| && forall i :: 0 <= i < |tuple| ==> tuple[i] == r[t.columns[i]]
  {
    seq(|t.columns|, i requires 0 <= i < |t.columns| => r[t.columns[i]])
  }

  lemma {:induction false} BoundLookup(columns: seq<Column>, tuple: seq<Value>)
    requires |tuple| == |columns| && Distinct(columns)
    ensures Bound(columns, tuple).Keys == (set c | c in columns)
    ensures forall i :: 0 <= i < |columns| ==> Bound(columns, tuple)[columns[i]] == tuple[i]
    decreases |columns|
  {
    if columns != [] {
      var n := |columns| - 1;
      var front, bound := columns[..n], Bound(columns[..n], tuple[..n]);
      BoundLookup(front, tuple[..n]);
      assert columns == front + [columns[n]];
      assert Bound(columns, tuple) == bound[columns[n] := tuple[n]];
      forall i | 0 <= i < n ensures Bound(columns, tuple)[columns[i]] == tuple[i] {
        assert front[i] == columns[i] != columns[n] && bound[front[i]] == tuple[..n][i];
      }
    }
  }

  lemma InsertedIsPlain(t: Table, r: Row)
    requires WellFormed(t) && forall c :: c in t.columns ==> c in r
    ensures Inserted(t, Values(t, r)) == Plain(t, r)
  {
    BoundLookup(t.columns, Values(t, r));
    var a, b := Bound(t.columns, Values(t, r)), map c | c in t.columns && c in r :: r[c];
    forall c | c in t.columns ensures a[c] == b[c] {
      var i :| 0 <= i < |t.columns| && t.columns[i] == c;
    }
    assert a == b;
  }

  // ---- one INSERT statement

  /** A statement: one group of placeholder numbers per row, and the bound parameters, numbered from 1. */
  datatype Insert = Insert(groups: seq<seq<nat>>, params: seq<Value>)

  /** Every group binds the values of its own row. */
  predicate BindsRows(q: Insert, t: Table, rows: seq<Row>) {
    && |q.groups| == |rows|
    && forall k :: 0 <= k < |rows| ==> BindsRow(q, t, q.groups[k], rows[k])
  }

  predicate BindsRow(q: Insert, t: Table, group: seq<nat>, r: Row) {
    && |group| == |t.columns|
    && forall i :: 0 <= i < |group| ==>
         1 <= group[i] <= |q.params| && t.columns[i] in r && q.params[group[i] - 1] == r[t.columns[i]]
  }

  function Tuple(params: seq<Value>, group: seq<nat>): (tuple: seq<Value>)
    requires forall i :: 0 <= i < |group| ==> 1 <= group[i] <= |params|
    ensures |tuple| == |group|
  {
    seq(|group|, i requires 0 <= i < |group| => params[group[i] - 1])
  }

  /** What the engine does with the statement: one row per group. */
  function Execute(t: Table, q: Insert, n: nat): seq<Row>
    requires n <= |q.groups|
    requires forall k :: 0 <= k < |q.groups| ==>
      |q.groups[k]| == |t.columns| && forall i :: 0 <= i < |q.groups[k]| ==> 1 <= q.groups[k][i] <= |q.params|
  {
    if n == 0 then [] else Execute(t, q, n - 1) + [Inserted(t, Tuple(q.params, q.groups[n - 1]))]
  }

  lemma GroupMakesPlainRow(t: Table, q: Insert, group: seq<nat>, r: Row)
    requires WellFormed(t) && BindsRow(q, t, group, r)
    ensures Inserted(t, Tuple(q.params, group)) == Plain(t, r)
  {
    forall c | c in t.columns ensures c in r {
      var i :| 0 <= i < |t.columns| && t.columns[i] == c;
      assert t.columns[i] in r;
    }
    assert Tuple(q.params, group) == Values(t, r);
    InsertedIsPlain(t, r);
  }

  lemma {:induction false} ExecuteMakesPlainRows(t: Table, q: Insert, rows: seq<Row>, n: nat)
    requires WellFormed(t) && BindsRows(q, t, rows) && n <= |rows|
    ensures Execute(t, q, n) == PlainAll(t, rows[..n])
    decreases n
  {
    if n > 0 {
      ExecuteMakesPlainRows(t, q, rows, n - 1);
      assert rows[..n][..n - 1] == rows[..n - 1];
      GroupMakesPlainRow(t, q, q.groups[n - 1], rows[n - 1]);
    }
  }

  /** Numbers the placeholders of one batch and collects its parameters. */
  method BuildInsert(t: Table, chunk: seq<Row>) returns (q: Insert)
    requires forall r, c :: r in chunk && c in t.columns ==> c in r
    ensures BindsRows(q, t, chunk)
  {
    var groups: seq<seq<nat>> := [];
    var params: seq<Value> := [];
    var next: nat := 1;
    for k := 0 to |chunk|
      invariant next == |params| + 1
      invariant BindsRows(Insert(groups, params), t, chunk[..k])
    {
      var row := chunk[k];
      ghost var before := params;
      var group: seq<nat> := [];
      for i := 0 to |t.columns|
        invariant next == |params| + 1 && |group| == i
        invariant before <= params
        invariant forall j :: 0 <= j < i ==>
          1 <= group[j] <= |params| && t.columns[j] in row && params[group[j] - 1] == row[t.columns[j]]
      {
        group := group + [next];
        next := next + 1;
        params := params + [row[t.columns[i]]];
      }
      MoreParams(Insert(groups, before), params, t, chunk[..k]);
      assert BindsRow(Insert(groups, params), t, group, row);
      groups := groups + [group];
    }
    assert chunk[..|chunk|] == chunk;
    q := Insert(groups, params);
  }

  lemma MoreParams(q: Insert, params: seq<Value>, t: Table, rows: seq<Row>)
    requires BindsRows(q, t, rows) && q.params <= params
    ensures BindsRows(q.(params := params), t, rows)
  {}

  lemma {:induction false} PlainAllConcat(t: Table, a: seq<Row>, b: seq<Row>)
    ensures PlainAll(t, a + b) == PlainAll(t, a) + PlainAll(t, b)
    ensures |PlainAll(t, a)| == |a|
    decreases |a| + |b|
  {
    if b == [] {
      assert a + b == a;
      if a != [] {
        PlainAllConcat(t, a[..|a| - 1], []);
        assert a[..|a| - 1] + [] == a[..|a| - 1];
      }
    } else {
      assert (a + b)[..|a + b| - 1] == a + b[..|b| - 1];
      PlainAllConcat(t, a, b[..|b| - 1]);
    }
  }

  // ---- one table

  /** The destination after one copy: its scope replaced by plain copies of the source scope. */
  function Copied(src: Db, dst: Db, j: Job): Db {
    Cleared(dst, j)[j.table.name :=
      Outside(RowsOf(dst, j.table.name), j.volume) + PlainAll(j.table, Scope(RowsOf(src, j.table.name), j.volume))]
  }

  /** Clearing a whole table takes the rows that reference it along. */
  function Cleared(dst: Db, j: Job): Db {
    map name | name in dst :: if name in j.table.children then [] else dst[name]
  }

  /** Whether copying `n` rows meets the fault: an insert fails only if its batch is reached. */
  predicate CopyFails(f: CopyFault, n: nat) {
    match f
    case NoFault => false
    case InsertFails(batch) => batch * BATCH_ROWS < n
    case _ => true
  }

  /** One batch: the statement that is sent, and the rows it adds. */
  method SendBatch(t: Table, chunk: seq<Row>) returns (added: seq<Row>)
    requires WellFormed(t) && forall r, c :: r in chunk && c in t.columns ==> c in r
    ensures added == PlainAll(t, chunk)
  {
    var q := BuildInsert(t, chunk);
    ExecuteMakesPlainRows(t, q, chunk, |chunk|);
    assert chunk[..|chunk|] == chunk;
    assert forall k :: 0 <= k < |q.groups| ==> BindsRow(q, t, q.groups[k], chunk[k]);
    added := Execute(t, q, |q.groups|);
  }

  /** The batches of one transaction: the rows they add, or the failure that rolls them back. */
  method SendBatches(t: Table, rows: seq<Row>, f: CopyFault) returns (r: Result<seq<Row>, Error>)
    requires WellFormed(t) && forall r, c :: r in rows && c in t.columns ==> c in r
    ensures r == if f.InsertFails? && CopyFails(f, |rows|) then Err(CopyFailed) else Ok(PlainAll(t, rows))
  {
    var pending: seq<Row> := [];
    var at := 0;
    var batch: nat := 0;
    while at < |rows|
      invariant at <= |rows|
      invariant at == Min(batch * BATCH_ROWS, |rows|)
      invariant f.InsertFails? ==> batch <= f.batch || |rows| <= f.batch * BATCH_ROWS
      invariant pending == PlainAll(t, rows[..at])
      decreases |rows| - at
    {
      if f == InsertFails(batch) {
        return Err(CopyFailed);
      }
      var end := Min(at + BATCH_ROWS, |rows|);
      var chunk := rows[at..end];
      var added := SendBatch(t, chunk);
      pending := pending + added;
      assert rows[..end] == rows[..at] + chunk;
      PlainAllConcat(t, rows[..at], chunk);
      at := end;
      batch := batch + 1;
    }
    assert rows[..at] == rows;
    r := Ok(pending);
  }

  ghost predicate AllValid(jobs: seq<Job>, src: Db) {
    forall i :: 0 <= i < |jobs| ==> ValidJob(jobs[i], src)
  }

  class Database {
    var tables: Db

    constructor (tables: Db)
      ensures this.tables == tables
    {
      this.tables := tables;
    }

    /** One table in one transaction: whatever fails, nothing is left behind. */
    method CopyTable(src: Db, j: Job, f: CopyFault) returns (r: Result<nat, Error>)
      requires ValidJob(j, src)
      modifies this`tables
      ensures r == if CopyFails(f, RowsIn(src, j)) then Err(CopyFailed) else Ok(RowsIn(src, j))
      ensures tables == if CopyFails(f, RowsIn(src, j)) then old(tables) else Copied(src, old(tables), j)
    {
      if f.SelectFails? {
        return Err(CopyFailed);
      }
      var rows := Scope(RowsOf(src, j.table.name), j.volume);
      if f.ClearFails? {
        return Err(CopyFailed);
      }
      var kept := Outside(RowsOf(tables, j.table.name), j.volume);
      ScopeFits(j, src);
      var sent := SendBatches(j.table, rows, f);
      if sent.Err? {
        return Err(sent.error);
      }
      if f.CommitFails? {
        return Err(CopyFailed);
      }
      tables := Cleared(tables, j)[j.table.name := kept + sent.value];
      PlainAllConcat(j.table, rows, []);
      r := Ok(|sent.value|);
    }

    /** One job: what comes before it, the copy, its entry in the report, and the count of both sides. */
    method CopyAndRecord(src: Db, j: Job, f: JobFault, report: Report) returns (r: Result<Report, Error>)
      requires ValidJob(j, src) && OneEntryEach(report)
      modifies this`tables
      ensures tables == if Copies(src, j, f) then Copied(src, old(tables), j) else old(tables)
      ensures r.Ok? ==>
        && Halt(src, j, f).None? && OneEntryEach(r.value)
        && TotalRows(r.value) == TotalRows(report) + RowsIn(src, j)
      ensures r.Err? ==> Some(r.error) == Halt(src, j, f) || (r.error.Incomplete? && Copies(src, j, f) && CountsDiffer(src, tables, j))
    {
      if f.store {
        return Err(StoreFailed);
      }
      var n := CopyTable(src, j, f.copy);
      if n.Err? {
        return Err(n.error);
      }
      var next := Record(report, j.table.name, n.value);
      if j.counted && f.count {
        return Err(CountUnreadable);
      }
      if j.counted && CountsDiffer(src, tables, j) {
        return Err(Incomplete(j.table.name));
      }
      r := Ok(next);
    }

    /**
     Every job in order, recording its rows and counting both sides afterwards. It stops at the first failure,
     `closing` being one after the last job, with the jobs before it copied; the counts never disagree.
     */
    method Migrate(src: Db, jobs: seq<Job>, fails: seq<JobFault>, closing: bool) returns (r: Result<Report, Error>, ghost done: nat)
      requires AllValid(jobs, src) && |fails| == |jobs|
      modifies this`tables
      ensures done <= |jobs| && tables == AfterJobs(src, old(tables), jobs[..done])
      ensures r.Ok? ==> !closing && done == |jobs| && TotalRows(r.value) == RowCount(src, jobs) && OneEntryEach(r.value)
      ensures r.Err? ==> StopsAt(src, jobs, fails, closing, done, r.error)
      ensures r.Ok? <==> !closing && NoneHalts(src, jobs, fails, |jobs|)
    {
      ghost var was := tables;
      var report: Report := [];
      for i := 0 to |jobs|
        invariant tables == AfterJobs(src, was, jobs[..i])
        invariant TotalRows(report) == RowCount(src, jobs[..i]) && OneEntryEach(report)
        invariant NoneHalts(src, jobs, fails, i)
      {
        OneMoreJob(src, was, jobs, i);
        CountsAgreeAfterACopy(src, tables, jobs[i]);
        var step := CopyAndRecord(src, jobs[i], fails[i], report);
        if step.Err? {
          StopIsNamed(src, jobs, fails, closing, i, step.error);
          return Err(step.error), if Copies(src, jobs[i], fails[i]) then i + 1 else i;
        }
        report := step.value;
        OneMoreGoesThrough(src, jobs, fails, i);
      }
      assert jobs[..|jobs|] == jobs;
      if closing {
        return Err(StoreFailed), |jobs|;
      }
      return Ok(report), |jobs|;
    }
  }

  /** The copy of this job goes through. */
  predicate Copies(src: Db, j: Job, f: JobFault) {
    !f.store && !CopyFails(f.copy, RowsIn(src, j))
  }

  /** The error this job ends the migration with, if any. */
  function Halt(src: Db, j: Job, f: JobFault): Option<Error> {
    if f.store then Some(StoreFailed)
    else if CopyFails(f.copy, RowsIn(src, j)) then Some(CopyFailed)
    else if j.counted && f.count then Some(CountUnreadable)
    else None
  }

  /** A job ends it unless no store fails, no reached batch or other part of its copy fails, and no count it makes fails. */
  lemma HaltInPlainTerms(src: Db, j: Job, f: JobFault)
    ensures Halt(src, j, f).None? <==>
      && !f.store && !(j.counted && f.count)
      && (f.copy.NoFault? || (f.copy.InsertFails? && RowsIn(src, j) <= f.copy.batch * 100))
    ensures Halt(src, j, f).Some? ==>
      Halt(src, j, f).value ==
      if f.store then StoreFailed
      else if f.copy.NoFault? || (f.copy.InsertFails? && RowsIn(src, j) <= f.copy.batch * 100) then CountUnreadable
      else CopyFailed
  {}

  ghost predicate NoneHalts(src: Db, jobs: seq<Job>, fails: seq<JobFault>, n: nat)
    requires n <= |jobs| == |fails|
  {
    forall i :: 0 <= i < n ==> Halt(src, jobs[i], fails[i]).None?
  }

  lemma OneMoreGoesThrough(src: Db, jobs: seq<Job>, fails: seq<JobFault>, i: nat)
    requires i < |jobs| == |fails| && NoneHalts(src, jobs, fails, i) && Halt(src, jobs[i], fails[i]).None?
    ensures NoneHalts(src, jobs, fails, i + 1)
  {}

  /** A migration that copied `done` jobs and then met `error`: before the next copy, or after the last one. */
  predicate StopsAt(src: Db, jobs: seq<Job>, fails: seq<JobFault>, closing: bool, done: nat, error: Error)
    requires |fails| == |jobs| && done <= |jobs|
  {
    || (done < |jobs| && !Copies(src, jobs[done], fails[done]) && Halt(src, jobs[done], fails[done]) == Some(error))
    || (done > 0 && Copies(src, jobs[done - 1], fails[done - 1]) && Halt(src, jobs[done - 1], fails[done - 1]) == Some(error))
    || (done == |jobs| && closing && error == StoreFailed)
  }

  lemma StopIsNamed(src: Db, jobs: seq<Job>, fails: seq<JobFault>, closing: bool, i: nat, error: Error)
    requires |fails| == |jobs| && i < |jobs| && Halt(src, jobs[i], fails[i]) == Some(error)
    ensures StopsAt(src, jobs, fails, closing, if Copies(src, jobs[i], fails[i]) then i + 1 else i, error)
    ensures !NoneHalts(src, jobs, fails, |jobs|)
  {}

  lemma OneMoreJob(src: Db, was: Db, jobs: seq<Job>, i: nat)
    requires i < |jobs|
    ensures AfterJobs(src, was, jobs[..i + 1]) == Copied(src, AfterJobs(src, was, jobs[..i]), jobs[i])
    ensures RowCount(src, jobs[..i + 1]) == RowCount(src, jobs[..i]) + RowsIn(src, jobs[i])
  {
    assert jobs[..i + 1][..i] == jobs[..i];
  }

  predicate CountsDiffer(src: Db, dst: Db, j: Job) {
    RowsIn(src, j) != RowsIn(dst, j)
  }

  /** The count after a copy never disagrees, so a migration only ever stops on a failed insert. */
  lemma CountsAgreeAfterACopy(src: Db, dst: Db, j: Job)
    requires ValidJob(j, src)
    ensures !CountsDiffer(src, Copied(src, dst, j), j)
  {
    CopyReplacesScope(src, dst, j);
    PlainAllConcat(j.table, Scope(RowsOf(src, j.table.name), j.volume), []);
  }

  lemma ScopeFits(j: Job, src: Db)
    requires ValidJob(j, src)
    ensures forall r, c :: r in Scope(RowsOf(src, j.table.name), j.volume) && c in j.table.columns ==> c in r
  {}

  // ---- the report

  datatype Entry = Entry(table: TableName, rows: nat)

  type Report = seq<Entry>

  function TotalRows(report: Report): nat {
    if report == [] then 0 else TotalRows(report[..|report| - 1]) + report[|report| - 1].rows
  }

  function RowsFor(report: Report, table: TableName): nat {
    if report == [] then 0
    else RowsFor(report[..|report| - 1], table) + if report[|report| - 1].table == table then report[|report| - 1].rows else 0
  }

  predicate OneEntryEach(report: Report) {
    forall i, j :: 0 <= i < j < |report| ==> report[i].table != report[j].table
  }

  lemma {:induction false} AddToEntry(report: Report, i: nat, rows: nat, table: TableName)
    requires i < |report|
    ensures var next := report[i := report[i].(rows := report[i].rows + rows)];
            && TotalRows(next) == TotalRows(report) + rows
            && RowsFor(next, table) == RowsFor(report, table) + if report[i].table == table then rows else 0
    decreases |report|
  {
    var next := report[i := report[i].(rows := report[i].rows + rows)];
    var n := |report| - 1;
    if i < n {
      assert next[..n] == report[..n][i := report[..n][i].(rows := report[..n][i].rows + rows)];
      AddToEntry(report[..n], i, rows, table);
    } else {
      assert next[..n] == report[..n];
    }
  }

  lemma NewEntry(report: Report, e: Entry, table: TableName)
    ensures TotalRows(report + [e]) == TotalRows(report) + e.rows
    ensures RowsFor(report + [e], table) == RowsFor(report, table) + if e.table == table then e.rows else 0
  {}

  /** One entry per table: a table already reported accumulates. */
  method Record(report: Report, table: TableName, rows: nat) returns (next: Report)
    requires OneEntryEach(report)
    ensures OneEntryEach(next) && TotalRows(next) == TotalRows(report) + rows
    ensures forall t :: RowsFor(next, t) == RowsFor(report, t) + if t == table then rows else 0
  {
    var i := 0;
    while i < |report|
      invariant i <= |report|
      invariant forall k :: 0 <= k < i ==> report[k].table != table
    {
      if report[i].table == table {
        next := report[i := report[i].(rows := report[i].rows + rows)];
        AddToEntry(report, i, rows, table);
        forall t { AddToEntry(report, i, rows, t); }
        return;
      }
      i := i + 1;
    }
    next := report + [Entry(table, rows)];
    NewEntry(report, Entry(table, rows), table);
    forall t { NewEntry(report, Entry(table, rows), t); }
  }

  function RowsIn(db: Db, j: Job): nat {
    |Scope(RowsOf(db, j.table.name), j.volume)|
  }

  function RowCount(src: Db, jobs: seq<Job>): nat {
    if jobs == [] then 0
    else
      var j := jobs[|jobs| - 1];
      RowCount(src, jobs[..|jobs| - 1]) + RowsIn(src, j)
  }

  function AfterJobs(src: Db, dst: Db, jobs: seq<Job>): Db {
    if jobs == [] then dst else Copied(src, AfterJobs(src, dst, jobs[..|jobs| - 1]), jobs[|jobs| - 1])
  }

  // ---- what one copy means

  /** A plain copy stays in the scope it came from and in no other volume. */
  lemma {:induction false} PlainStaysInScope(t: Table, rows: seq<Row>, volume: Option<string>, other: string)
    requires volume.Some? ==> VOLUME_ID in t.columns
    requires forall r :: r in rows ==> InScope(r, volume)
    ensures forall r :: r in PlainAll(t, rows) ==> InScope(r, volume)
    ensures volume.Some? && volume.value != other ==> forall r :: r in PlainAll(t, rows) ==> !InScope(r, Some(other))
    decreases |rows|
  {
    if rows != [] {
      var front, last := rows[..|rows| - 1], rows[|rows| - 1];
      assert rows == front + [last];
      PlainStaysInScope(t, front, volume, other);
      var plain := Plain(t, last);
      assert InScope(last, volume);
      assert volume.Some? ==> plain[VOLUME_ID] == last[VOLUME_ID];
      assert PlainAll(t, rows) == PlainAll(t, front) + [plain];
    }
  }

  /** After a copy the destination scope holds exactly plain copies of the source rows, in order. */
  lemma CopyReplacesScope(src: Db, dst: Db, j: Job)
    requires ValidJob(j, src)
    ensures Scope(RowsOf(Copied(src, dst, j), j.table.name), j.volume)
         == PlainAll(j.table, Scope(RowsOf(src, j.table.name), j.volume))
  {
    var p := (r: Row) => InScope(r, j.volume);
    var kept, plain := Outside(RowsOf(dst, j.table.name), j.volume), PlainAll(j.table, Scope(RowsOf(src, j.table.name), j.volume));
    PlainStaysInScope(j.table, Scope(RowsOf(src, j.table.name), j.volume), j.volume, "");
    FilterConcat(kept, plain, p);
    FilterNone(kept, p);
    FilterAll(plain, p);
  }

  lemma {:induction false} FilterTwice(rows: seq<Row>, p: Row -> bool, q: Row -> bool)
    requires forall r :: r in rows && q(r) ==> p(r)
    ensures Filter(Filter(rows, p), q) == Filter(rows, q)
    decreases |rows|
  {
    if rows != [] {
      var front, last := rows[..|rows| - 1], rows[|rows| - 1];
      assert rows == front + [last];
      FilterTwice(front, p, q);
      FilterConcat(Filter(front, p), if p(last) then [last] else [], q);
      assert Filter([last], q) == if q(last) then [last] else [] by {
        assert [last][..0] == [];
      }
    }
  }

  /** A copy of one volume leaves every other volume's rows as they were. */
  lemma OtherVolumesUntouched(src: Db, dst: Db, j: Job, other: string)
    requires ValidJob(j, src) && j.volume.Some? && j.volume.value != other
    ensures Scope(RowsOf(Copied(src, dst, j), j.table.name), Some(other)) == Scope(RowsOf(dst, j.table.name), Some(other))
  {
    var p := (r: Row) => InScope(r, Some(other));
    var mine := Scope(RowsOf(src, j.table.name), j.volume);
    var kept, plain := Outside(RowsOf(dst, j.table.name), j.volume), PlainAll(j.table, mine);
    PlainStaysInScope(j.table, mine, j.volume, other);
    FilterConcat(kept, plain, p);
    FilterNone(plain, p);
    FilterTwice(RowsOf(dst, j.table.name), (r: Row) => !InScope(r, j.volume), p);
    assert Filter(kept, p) + [] == Filter(kept, p);
  }

  /** A row of the source keeps every value, or only those of the declared columns. */
  lemma PlainKeepsRowIff(t: Table, r: Row)
    requires WellFormed(t) && r.Keys == (set c | c in t.columns) + t.added.Keys
    ensures Plain(t, r) == r <==> forall c :: c in t.added ==> r[c] == t.added[c]
  {}

  /**
   The rows arrive as they were exactly when, in every one of them, each column added by a column migration
   still holds its default: what such a column holds otherwise is not copied.
   */
  lemma {:induction false} CopyIsFaithfulIffAddedColumnsAreDefault(t: Table, rows: seq<Row>)
    requires WellFormed(t) && Fits(t, rows)
    ensures PlainAll(t, rows) == rows <==> forall r, c :: r in rows && c in t.added ==> r[c] == t.added[c]
    decreases |rows|
  {
    if rows != [] {
      var front, last := rows[..|rows| - 1], rows[|rows| - 1];
      assert rows == front + [last];
      CopyIsFaithfulIffAddedColumnsAreDefault(t, front);
      PlainKeepsRowIff(t, last);
      PlainAllConcat(t, front, []);
      var all := PlainAll(t, rows);
      assert all == PlainAll(t, front) + [Plain(t, last)];
      assert all[..|front|] == PlainAll(t, front) && all[|front|] == Plain(t, last);
    }
  }

  // ---- the whole migration

  /** Two jobs that do not get in each other's way: distinct scopes, and the later one's clear spares the earlier. */
  predicate Independent(earlier: Job, later: Job) {
    && earlier.table.name !in later.table.children
    && (earlier.table.name == later.table.name ==>
          earlier.volume.Some? && later.volume.Some? && earlier.volume != later.volume)
  }

  ghost predicate InOrder(jobs: seq<Job>) {
    forall i, k :: 0 <= i < k < |jobs| ==> Independent(jobs[i], jobs[k])
  }

  lemma LaterCopySparesEarlier(src: Db, dst: Db, earlier: Job, later: Job)
    requires ValidJob(later, src) && Independent(earlier, later)
    ensures Scope(RowsOf(Copied(src, dst, later), earlier.table.name), earlier.volume)
         == Scope(RowsOf(dst, earlier.table.name), earlier.volume)
  {
    if earlier.table.name == later.table.name {
      OtherVolumesUntouched(src, dst, later, earlier.volume.value);
    }
  }

  /** Every job's scope of the destination holds plain copies of its source rows, whatever was there before. */
  lemma {:induction false} EveryJobIsCopied(src: Db, dst: Db, jobs: seq<Job>, i: nat)
    requires i < |jobs| && InOrder(jobs) && AllValid(jobs, src)
    ensures Scope(RowsOf(AfterJobs(src, dst, jobs), jobs[i].table.name), jobs[i].volume)
         == PlainAll(jobs[i].table, Scope(RowsOf(src, jobs[i].table.name), jobs[i].volume))
    decreases |jobs|
  {
    var front, last := jobs[..|jobs| - 1], jobs[|jobs| - 1];
    assert jobs == front + [last];
    if i == |jobs| - 1 {
      CopyReplacesScope(src, AfterJobs(src, dst, front), last);
    } else {
      EveryJobIsCopied(src, dst, front, i);
      assert front[i] == jobs[i];
      LaterCopySparesEarlier(src, AfterJobs(src, dst, front), jobs[i], last);
    }
  }

  /** What no job names and no clear takes along stays as it was. */
  lemma {:induction false} NothingElseIsTouched(src: Db, dst: Db, jobs: seq<Job>, table: TableName, volume: Option<string>)
    requires AllValid(jobs, src)
    requires forall j :: j in jobs ==> Independent(Job(Table(table, [], map[], {}), volume, false), j)
    ensures Scope(RowsOf(AfterJobs(src, dst, jobs), table), volume) == Scope(RowsOf(dst, table), volume)
    decreases |jobs|
  {
    if jobs != [] {
      var front, last := jobs[..|jobs| - 1], jobs[|jobs| - 1];
      assert jobs == front + [last];
      NothingElseIsTouched(src, dst, front, table, volume);
      LaterCopySparesEarlier(src, AfterJobs(src, dst, front), Job(Table(table, [], map[], {}), volume, false), last);
    }
  }

  // ---- the jobs in the order the code runs them

  const PROJECT := Table("project", ["id", "owner", "created_at"],
                         map["index_mode" := Text("none"), "deleted_at" := Null, "quota_bytes" := Null],
                         {"project_member", "project_purge_config"})

  const PROJECT_MEMBER := Table("project_member", ["project_id", "person", "role", "added_by", "added_at"], map[], {})

  const OAUTH_TOKENS := Table("oauth_tokens",
                              ["person", "host", "provider", "token_enc", "scopes", "expires_at", "instance_url"], map[], {})

  const NODES := Table("nodes",
                       [VOLUME_ID, "path", "parent", "name", "kind", "size", "mode", "mtime", "ctime", "atime", SHA256],
                       map["rev" := Null], {})

  const BLOB_REFS := Table("blob_refs", [VOLUME_ID, SHA256, "refcount", "size"], map[], {})

  const GIT_OBJECTS := Table("git_objects", [VOLUME_ID, "hash", "type", "size"], map[], {})

  const GIT_OPERATIONS := Table("git_operations",
                                [VOLUME_ID, "op_type", "state", "source_ref", "onto_sha", "original_tip_sha", "todo",
                                 "current_step", "total_steps", "conflicts", "resolutions", "created_at", "updated_at"], map[], {})

  const GIT_REFS := Table("git_refs", [VOLUME_ID, "name", "target", "symbolic"], map[], {})

  const GIT_REMOTES := Table("git_remotes", [VOLUME_ID, "name", "url"], map[], {})

  /** The registry and the tokens, each counted on both sides. */
  function AdminJobs(): seq<Job> {
    [Job(PROJECT, None, true), Job(PROJECT_MEMBER, None, true), Job(OAUTH_TOKENS, None, true)]
  }

  /** One project's rows; the git tables are not counted. */
  function VolumeJobs(id: string): seq<Job> {
    [Job(NODES, Some(id), true), Job(BLOB_REFS, Some(id), true), Job(GIT_OBJECTS, Some(id), false),
     Job(GIT_OPERATIONS, Some(id), false), Job(GIT_REFS, Some(id), false), Job(GIT_REMOTES, Some(id), false)]
  }

  /** Every job of a migration, for the projects in the order they are listed. */
  function JobsOf(ids: seq<string>): seq<Job> {
    if ids == [] then AdminJobs() else JobsOf(ids[..|ids| - 1]) + VolumeJobs(ids[|ids| - 1])
  }

  ghost predicate Unique(ids: seq<string>) {
    forall i, k :: 0 <= i < k < |ids| ==> ids[i] != ids[k]
  }

  predicate IsAdminJob(j: Job) {
    j.volume.None? && (j.table == PROJECT || j.table == PROJECT_MEMBER || j.table == OAUTH_TOKENS)
  }

  predicate IsVolumeTable(t: Table) {
    t == NODES || t == BLOB_REFS || t == GIT_OBJECTS || t == GIT_OPERATIONS || t == GIT_REFS || t == GIT_REMOTES
  }

  predicate IsVolumeJob(j: Job, ids: seq<string>) {
    j.volume.Some? && j.volume.value in ids && IsVolumeTable(j.table)
  }

  lemma {:induction false} JobsAreOfTheseKinds(ids: seq<string>)
    ensures forall j :: j in JobsOf(ids) ==> IsAdminJob(j) || IsVolumeJob(j, ids)
    decreases |ids|
  {
    if ids != [] {
      var front, id := ids[..|ids| - 1], ids[|ids| - 1];
      JobsAreOfTheseKinds(front);
      assert ids == front + [id];
      forall j | j in JobsOf(ids) ensures IsAdminJob(j) || IsVolumeJob(j, ids) {
        assert j in JobsOf(front) || j in VolumeJobs(id);
      }
    }
  }

  /** No volume table has the name of an admin table, no two volume tables the same one, and only a project has children. */
  lemma TableNames(t: Table, u: Table)
    requires IsVolumeTable(t) && IsVolumeTable(u)
    ensures t.name == u.name ==> t == u
    ensures t.name != PROJECT.name && t.name != PROJECT_MEMBER.name && t.name != OAUTH_TOKENS.name
    ensures t.children == {}
  {
    assert "git_objects"[4] == 'o' && "git_remotes"[4] == 'r';
    assert "git_operations"[0] == 'g' && "project_member"[0] == 'p';
  }

  lemma AdminJobsInOrder()
    ensures InOrder(AdminJobs())
  {
    assert |"project"| == 7 && |"project_member"| == 14 && |"oauth_tokens"| == 12;
  }

  lemma VolumeJobsInOrder(id: string)
    ensures InOrder(VolumeJobs(id))
  {
    assert "git_objects"[4] == 'o' && "git_remotes"[4] == 'r';
    assert |"nodes"| == 5 && |"blob_refs"| == 9 && |"git_operations"| == 14 && |"git_refs"| == 8;
  }

  /** A project's rows never get in the way of jobs for the registry or for other projects. */
  lemma VolumeJobComesLater(earlier: Job, later: Job, ids: seq<string>, id: string)
    requires IsAdminJob(earlier) || IsVolumeJob(earlier, ids)
    requires IsVolumeJob(later, [id]) && id !in ids
    ensures Independent(earlier, later)
  {
    TableNames(later.table, later.table);
  }

  /** The order the code copies in never lets a later clear or copy undo an earlier one, for any projects. */
  lemma {:induction false} TheCodeIsInOrder(ids: seq<string>)
    requires Unique(ids)
    ensures InOrder(JobsOf(ids))
    decreases |ids|
  {
    if ids == [] {
      AdminJobsInOrder();
    } else {
      var front, id := ids[..|ids| - 1], ids[|ids| - 1];
      var a, b := JobsOf(front), VolumeJobs(id);
      TheCodeIsInOrder(front);
      VolumeJobsInOrder(id);
      JobsAreOfTheseKinds(front);
      forall i, k | 0 <= i < k < |a + b| ensures Independent((a + b)[i], (a + b)[k]) {
        if k < |a| {
          assert Independent(a[i], a[k]);
        } else if i >= |a| {
          assert Independent(b[i - |a|], b[k - |a|]);
        } else {
          assert a[i] in a;
          VolumeJobComesLater(a[i], b[k - |a|], front, id);
        }
      }
    }
  }

  /** The rows of the source have the columns of the deployed tables. */
  ghost predicate FitsSchema(src: Db, ids: seq<string>) {
    forall j :: j in JobsOf(ids) ==> Fits(j.table, RowsOf(src, j.table.name))
  }

  // ---- stopping and starting over

  /** The same but for what copying `j` is about to overwrite. */
  ghost predicate AgreeApart(d: Db, e: Db, j: Job) {
    && (forall name :: name != j.table.name ==> (name in d <==> name in e))
    && (forall name :: name in d && name in e && name != j.table.name && name !in j.table.children ==> d[name] == e[name])
    && Outside(RowsOf(d, j.table.name), j.volume) == Outside(RowsOf(e, j.table.name), j.volume)
  }

  /** A copy keeps the rows outside its scope. */
  lemma CopyKeepsOutside(src: Db, d: Db, j: Job)
    requires ValidJob(j, src)
    ensures Outside(RowsOf(Copied(src, d, j), j.table.name), j.volume) == Outside(RowsOf(d, j.table.name), j.volume)
  {
    var p := (r: Row) => !InScope(r, j.volume);
    var mine := Scope(RowsOf(src, j.table.name), j.volume);
    var kept, plain := Outside(RowsOf(d, j.table.name), j.volume), PlainAll(j.table, mine);
    PlainStaysInScope(j.table, mine, j.volume, "");
    FilterConcat(kept, plain, p);
    FilterAll(kept, p);
    FilterNone(plain, p);
    assert kept + [] == kept;
  }

  lemma CopyAgreesApart(src: Db, d: Db, j: Job)
    requires ValidJob(j, src)
    ensures AgreeApart(Copied(src, d, j), d, j)
  {
    CopyKeepsOutside(src, d, j);
  }

  /** Copying another volume's rows commutes with looking only outside this one. */
  lemma OutsideOfCopy(rows: seq<Row>, other: seq<Row>, plain: seq<Row>, mine: Option<string>, theirs: Option<string>)
    requires Outside(rows, mine) == Outside(other, mine)
    ensures Outside(Outside(rows, theirs) + plain, mine) == Outside(Outside(other, theirs) + plain, mine)
  {
    var p, q := (r: Row) => !InScope(r, mine), (r: Row) => !InScope(r, theirs);
    FilterConcat(Outside(rows, theirs), plain, p);
    FilterConcat(Outside(other, theirs), plain, p);
    FiltersCommute(rows, p, q);
    FiltersCommute(other, p, q);
  }

  lemma {:induction false} FiltersCommute(rows: seq<Row>, p: Row -> bool, q: Row -> bool)
    ensures Filter(Filter(rows, q), p) == Filter(Filter(rows, p), q)
    decreases |rows|
  {
    if rows != [] {
      var front, last := rows[..|rows| - 1], rows[|rows| - 1];
      assert rows == front + [last];
      FiltersCommute(front, p, q);
      FilterBothAppends(front, last, p, q);
      FilterBothAppends(front, last, q, p);
    }
  }

  lemma FilterBothAppends(front: seq<Row>, last: Row, p: Row -> bool, q: Row -> bool)
    ensures Filter(Filter(front + [last], q), p) == Filter(Filter(front, q), p) + if p(last) && q(last) then [last] else []
  {
    FilterAppends(front, last, q);
    if q(last) {
      FilterAppends(Filter(front, q), last, p);
    } else {
      assert Filter(front, q) + [] == Filter(front, q);
    }
  }

  /** `after` is `d` with the table of `j` set to its rows outside the scope and `plain`, its children emptied. */
  ghost predicate IsCopy(d: Db, after: Db, j: Job, plain: seq<Row>) {
    && (forall name :: name in after <==> name in d || name == j.table.name)
    && (forall name :: name in d && name != j.table.name ==> after[name] == if name in j.table.children then [] else d[name])
    && RowsOf(after, j.table.name) == Outside(RowsOf(d, j.table.name), j.volume) + plain
  }

  lemma CopiedIsCopy(src: Db, d: Db, j: Job)
    ensures IsCopy(d, Copied(src, d, j), j, PlainAll(j.table, Scope(RowsOf(src, j.table.name), j.volume)))
  {}

  lemma CopiesAgreeElsewhere(d: Db, e: Db, x: Db, y: Db, earlier: Job, j: Job, plain: seq<Row>, name: TableName)
    requires AgreeApart(d, e, j) && Independent(earlier, j) && IsCopy(d, x, earlier, plain) && IsCopy(e, y, earlier, plain)
    requires name != j.table.name
    ensures name in x <==> name in y
    ensures name in x && name in y && name !in j.table.children ==> x[name] == y[name]
  {
    if name == earlier.table.name {
      assert RowsOf(d, name) == RowsOf(e, name);
    }
  }

  lemma CopiesAgreeOutside(d: Db, e: Db, x: Db, y: Db, earlier: Job, j: Job, plain: seq<Row>)
    requires AgreeApart(d, e, j) && Independent(earlier, j) && IsCopy(d, x, earlier, plain) && IsCopy(e, y, earlier, plain)
    ensures Outside(RowsOf(x, j.table.name), j.volume) == Outside(RowsOf(y, j.table.name), j.volume)
  {
    if earlier.table.name == j.table.name {
      OutsideOfCopy(RowsOf(d, j.table.name), RowsOf(e, j.table.name), plain, j.volume, earlier.volume);
    } else if j.table.name in earlier.table.children {
      assert RowsOf(x, j.table.name) == [] == RowsOf(y, j.table.name);
    } else {
      assert RowsOf(x, j.table.name) == RowsOf(d, j.table.name);
      assert RowsOf(y, j.table.name) == RowsOf(e, j.table.name);
    }
  }

  lemma EarlierCopyKeepsAgreement(src: Db, d: Db, e: Db, earlier: Job, j: Job)
    requires AgreeApart(d, e, j) && Independent(earlier, j)
    ensures AgreeApart(Copied(src, d, earlier), Copied(src, e, earlier), j)
  {
    var plain := PlainAll(earlier.table, Scope(RowsOf(src, earlier.table.name), earlier.volume));
    CopiedIsCopy(src, d, earlier);
    CopiedIsCopy(src, e, earlier);
    CopiesAgree(d, e, Copied(src, d, earlier), Copied(src, e, earlier), earlier, j, plain);
  }

  lemma CopiesAgree(d: Db, e: Db, x: Db, y: Db, earlier: Job, j: Job, plain: seq<Row>)
    requires AgreeApart(d, e, j) && Independent(earlier, j) && IsCopy(d, x, earlier, plain) && IsCopy(e, y, earlier, plain)
    ensures AgreeApart(x, y, j)
  {
    forall name | name != j.table.name
      ensures name in x <==> name in y
      ensures name in x && name in y && name !in j.table.children ==> x[name] == y[name]
    {
      CopiesAgreeElsewhere(d, e, x, y, earlier, j, plain, name);
    }
    CopiesAgreeOutside(d, e, x, y, earlier, j, plain);
  }

  lemma SameAfterTheCopy(src: Db, d: Db, e: Db, j: Job)
    requires AgreeApart(d, e, j)
    ensures Copied(src, d, j) == Copied(src, e, j)
  {
    var a, b := Copied(src, d, j), Copied(src, e, j);
    assert a.Keys == d.Keys + {j.table.name} && b.Keys == e.Keys + {j.table.name};
    forall name | name in a ensures name in b && a[name] == b[name] {}
  }

  lemma OneEarlierJob(src: Db, d: Db, e: Db, jobs: seq<Job>, k: nat, n: nat)
    requires n < k < |jobs| && Independent(jobs[n], jobs[k])
    requires AgreeApart(AfterJobs(src, d, jobs[..n]), AfterJobs(src, e, jobs[..n]), jobs[k])
    ensures AgreeApart(AfterJobs(src, d, jobs[..n + 1]), AfterJobs(src, e, jobs[..n + 1]), jobs[k])
  {
    OneMoreJob(src, d, jobs, n);
    OneMoreJob(src, e, jobs, n);
    EarlierCopyKeepsAgreement(src, AfterJobs(src, d, jobs[..n]), AfterJobs(src, e, jobs[..n]), jobs[n], jobs[k]);
  }

  lemma {:induction false} EarlierJobsKeepAgreement(src: Db, d: Db, e: Db, jobs: seq<Job>, k: nat, n: nat)
    requires n <= k < |jobs| && InOrder(jobs) && AgreeApart(d, e, jobs[k])
    ensures AgreeApart(AfterJobs(src, d, jobs[..n]), AfterJobs(src, e, jobs[..n]), jobs[k])
    decreases n
  {
    if n > 0 {
      EarlierJobsKeepAgreement(src, d, e, jobs, k, n - 1);
      OneEarlierJob(src, d, e, jobs, k, n - 1);
    }
  }

  lemma {:induction false} SameFromThere(src: Db, d: Db, e: Db, jobs: seq<Job>, n: nat, k: nat)
    requires n <= k <= |jobs| && AfterJobs(src, d, jobs[..n]) == AfterJobs(src, e, jobs[..n])
    ensures AfterJobs(src, d, jobs[..k]) == AfterJobs(src, e, jobs[..k])
    decreases k
  {
    if n < k {
      SameFromThere(src, d, e, jobs, n, k - 1);
      SameStep(src, d, e, jobs, k - 1);
    }
  }

  lemma SameStep(src: Db, d: Db, e: Db, jobs: seq<Job>, k: nat)
    requires k < |jobs| && AfterJobs(src, d, jobs[..k]) == AfterJobs(src, e, jobs[..k])
    ensures AfterJobs(src, d, jobs[..k + 1]) == AfterJobs(src, e, jobs[..k + 1])
  {
    OneMoreJob(src, d, jobs, k);
    OneMoreJob(src, e, jobs, k);
  }

  /** A copy made ahead of a migration that makes it again leaves no trace. */
  lemma CopyAheadIsForgotten(src: Db, d: Db, jobs: seq<Job>, k: nat)
    requires k < |jobs| && InOrder(jobs) && AllValid(jobs, src)
    ensures AfterJobs(src, Copied(src, d, jobs[k]), jobs) == AfterJobs(src, d, jobs)
  {
    var ahead := Copied(src, d, jobs[k]);
    CopyAgreesApart(src, d, jobs[k]);
    EarlierJobsKeepAgreement(src, ahead, d, jobs, k, k);
    SameAfterTheCopy(src, AfterJobs(src, ahead, jobs[..k]), AfterJobs(src, d, jobs[..k]), jobs[k]);
    OneMoreJob(src, ahead, jobs, k);
    OneMoreJob(src, d, jobs, k);
    SameFromThere(src, ahead, d, jobs, k + 1, |jobs|);
    assert jobs[..|jobs|] == jobs;
  }

  lemma RestartOneEarlier(src: Db, dst: Db, jobs: seq<Job>, k: nat)
    requires k < |jobs| && InOrder(jobs) && AllValid(jobs, src)
    ensures AfterJobs(src, AfterJobs(src, dst, jobs[..k + 1]), jobs) == AfterJobs(src, AfterJobs(src, dst, jobs[..k]), jobs)
  {
    var before := AfterJobs(src, dst, jobs[..k]);
    OneMoreJob(src, dst, jobs, k);
    CopyAheadIsForgotten(src, before, jobs, k);
  }

  /** Stopping at any table boundary and starting over leaves the whole destination as one uninterrupted run does. */
  lemma {:induction false} RestartGivesTheSame(src: Db, dst: Db, jobs: seq<Job>, stop: nat)
    requires stop <= |jobs| && InOrder(jobs) && AllValid(jobs, src)
    ensures AfterJobs(src, AfterJobs(src, dst, jobs[..stop]), jobs) == AfterJobs(src, dst, jobs)
    decreases stop
  {
    if stop > 0 {
      RestartOneEarlier(src, dst, jobs, stop - 1);
      RestartGivesTheSame(src, dst, jobs, stop - 1);
    } else {
      assert jobs[..0] == [];
    }
  }

  lemma AdminTablesAreWellFormed()
    ensures WellFormed(PROJECT) && WellFormed(PROJECT_MEMBER) && WellFormed(OAUTH_TOKENS)
  {
    assert "created_at"[0] == 'c' && "index_mode"[0] == 'i' && "deleted_at"[0] == 'd';
    assert "added_by"[6] == 'b' && "added_at"[6] == 'a';
    assert "person"[0] == 'p' && "scopes"[0] == 's';
  }

  lemma NodesAreWellFormed()
    ensures WellFormed(NODES)
  {
    assert "path"[0] == 'p' && "name"[0] == 'n' && "kind"[0] == 'k' && "size"[0] == 's' && "mode"[0] == 'm';
    assert "mtime"[0] == 'm' && "ctime"[0] == 'c' && "atime"[0] == 'a';
    assert "parent"[0] == 'p' && SHA256[0] == 's';
  }

  lemma GitTablesAreWellFormed()
    ensures WellFormed(BLOB_REFS) && WellFormed(GIT_OBJECTS) && WellFormed(GIT_REFS) && WellFormed(GIT_REMOTES)
  {
    assert "hash"[0] == 'h' && "type"[0] == 't' && "size"[0] == 's';
  }

  lemma GitOperationsAreWellFormed()
    ensures WellFormed(GIT_OPERATIONS)
  {
    assert VOLUME_ID[0] == 'v' && "conflicts"[0] == 'c';
    assert "source_ref"[0] == 's' && "created_at"[0] == 'c' && "updated_at"[0] == 'u';
    assert "total_steps"[0] == 't' && "resolutions"[0] == 'r';
  }

  /** Every job of the code names each column once, restricts only tables that have a volume, and spares its own table. */
  lemma TheCodeIsValid(src: Db, ids: seq<string>)
    requires FitsSchema(src, ids)
    ensures AllValid(JobsOf(ids), src)
  {
    JobsAreOfTheseKinds(ids);
    forall i | 0 <= i < |JobsOf(ids)| ensures ValidJob(JobsOf(ids)[i], src) {
      assert JobsOf(ids)[i] in JobsOf(ids);
      TablesAreWellFormed(JobsOf(ids)[i], ids);
      KindIsValid(src, JobsOf(ids)[i], ids);
    }
  }

  lemma TablesAreWellFormed(j: Job, ids: seq<string>)
    requires IsAdminJob(j) || IsVolumeJob(j, ids)
    ensures WellFormed(j.table)
  {
    AdminTablesAreWellFormed();
    NodesAreWellFormed();
    GitTablesAreWellFormed();
    GitOperationsAreWellFormed();
  }

  lemma KindIsValid(src: Db, j: Job, ids: seq<string>)
    requires Fits(j.table, RowsOf(src, j.table.name)) && WellFormed(j.table) && (IsAdminJob(j) || IsVolumeJob(j, ids))
    ensures ValidJob(j, src)
  {
    if IsVolumeJob(j, ids) {
      VolumeTablesHaveAVolume(j.table);
    } else {
      AdminTablesSpareThemselves(j.table);
    }
  }

  lemma VolumeTablesHaveAVolume(t: Table)
    requires IsVolumeTable(t)
    ensures VOLUME_ID in t.columns && t.children == {}
  {
    assert t.columns[0] == VOLUME_ID;
  }

  lemma AdminTablesSpareThemselves(t: Table)
    requires t == PROJECT || t == PROJECT_MEMBER || t == OAUTH_TOKENS
    ensures t.name !in t.children
  {
    assert |"project"| == 7 && |"project_member"| == 14 && |"project_purge_config"| == 20;
  }

  /** The migration the code runs, for any projects: every table it copies then holds plain copies of the source's rows. */
  lemma MigrationIsComplete(src: Db, dst: Db, ids: seq<string>)
    requires Unique(ids) && FitsSchema(src, ids)
    ensures forall j :: j in JobsOf(ids) ==>
      Scope(RowsOf(AfterJobs(src, dst, JobsOf(ids)), j.table.name), j.volume)
      == PlainAll(j.table, Scope(RowsOf(src, j.table.name), j.volume))
  {
    TheCodeIsInOrder(ids);
    TheCodeIsValid(src, ids);
    forall j | j in JobsOf(ids)
      ensures Scope(RowsOf(AfterJobs(src, dst, JobsOf(ids)), j.table.name), j.volume)
           == PlainAll(j.table, Scope(RowsOf(src, j.table.name), j.volume))
    {
      var i :| 0 <= i < |JobsOf(ids)| && JobsOf(ids)[i] == j;
      EveryJobIsCopied(src, dst, JobsOf(ids), i);
    }
  }

  lemma {:induction false} EveryVolumeHasItsJobs(ids: seq<string>, id: string, t: Table)
    requires id in ids && IsVolumeTable(t)
    ensures exists counted :: Job(t, Some(id), counted) in JobsOf(ids)
    decreases |ids|
  {
    var front, last := ids[..|ids| - 1], ids[|ids| - 1];
    assert ids == front + [last];
    if id == last {
      assert VolumeJobs(id)[0].table == NODES && VolumeJobs(id)[1].table == BLOB_REFS && VolumeJobs(id)[2].table == GIT_OBJECTS;
      assert VolumeJobs(id)[3].table == GIT_OPERATIONS && VolumeJobs(id)[4].table == GIT_REFS && VolumeJobs(id)[5].table == GIT_REMOTES;
      var j :| j in VolumeJobs(id) && j.table == t;
      assert j == Job(t, Some(id), j.counted);
    } else {
      EveryVolumeHasItsJobs(front, id, t);
      var counted :| Job(t, Some(id), counted) in JobsOf(front);
    }
  }

  lemma {:induction false} TheRegistryHasItsJobs(ids: seq<string>)
    ensures Job(PROJECT, None, true) in JobsOf(ids)
    ensures Job(PROJECT_MEMBER, None, true) in JobsOf(ids)
    ensures Job(OAUTH_TOKENS, None, true) in JobsOf(ids)
    decreases |ids|
  {
    if ids == [] {
      assert AdminJobs()[0].table == PROJECT && AdminJobs()[1].table == PROJECT_MEMBER && AdminJobs()[2].table == OAUTH_TOKENS;
    } else {
      TheRegistryHasItsJobs(ids[..|ids| - 1]);
    }
  }

  lemma {:induction false} PlainAllAt(t: Table, rows: seq<Row>, i: nat)
    requires i < |rows|
    ensures |PlainAll(t, rows)| == |rows| && PlainAll(t, rows)[i] == Plain(t, rows[i])
    decreases |rows|
  {
    PlainAllConcat(t, rows, []);
    PlainAllConcat(t, rows[..|rows| - 1], []);
    if i < |rows| - 1 {
      PlainAllAt(t, rows[..|rows| - 1], i);
    }
  }

  /** Row for row and column for column: what plain copies are. */
  lemma PlainAllInPlainTerms(t: Table, from: seq<Row>, to: seq<Row>)
    requires WellFormed(t) && Fits(t, from) && to == PlainAll(t, from)
    ensures |to| == |from|
    ensures forall i, c :: 0 <= i < |from| && c in t.columns ==> c in from[i] && c in to[i] && to[i][c] == from[i][c]
    ensures forall i, c :: 0 <= i < |from| && c in t.added ==> c in to[i] && to[i][c] == t.added[c]
  {
    PlainAllConcat(t, from, []);
    forall i | 0 <= i < |from| ensures to[i] == Plain(t, from[i]) && from[i] in from {
      PlainAllAt(t, from, i);
    }
  }

  /** One table of one volume. */
  lemma VolumeTableArrives(src: Db, dst: Db, ids: seq<string>, id: string, t: Table)
    requires Unique(ids) && FitsSchema(src, ids) && id in ids && IsVolumeTable(t)
    ensures var from, to := RowsOfVolume(src, t.name, id), RowsOfVolume(AfterJobs(src, dst, JobsOf(ids)), t.name, id);
            && |to| == |from|
            && forall i, c :: 0 <= i < |from| && c in t.columns ==> c in from[i] && c in to[i] && to[i][c] == from[i][c]
  {
    EveryVolumeHasItsJobs(ids, id, t);
    var counted :| Job(t, Some(id), counted) in JobsOf(ids);
    JobArrives(src, dst, ids, Job(t, Some(id), counted));
    ScopeIsRowsOfVolume(src, t.name, id);
    ScopeIsRowsOfVolume(AfterJobs(src, dst, JobsOf(ids)), t.name, id);
  }

  lemma JobArrives(src: Db, dst: Db, ids: seq<string>, j: Job)
    requires Unique(ids) && FitsSchema(src, ids) && j in JobsOf(ids)
    ensures var from := Scope(RowsOf(src, j.table.name), j.volume);
            var to := Scope(RowsOf(AfterJobs(src, dst, JobsOf(ids)), j.table.name), j.volume);
            && |to| == |from|
            && forall i, c :: 0 <= i < |from| && c in j.table.columns ==> c in from[i] && c in to[i] && to[i][c] == from[i][c]
  {
    MigrationIsComplete(src, dst, ids);
    JobIsValid(src, ids, j);
    var from := Scope(RowsOf(src, j.table.name), j.volume);
    PlainAllInPlainTerms(j.table, from, Scope(RowsOf(AfterJobs(src, dst, JobsOf(ids)), j.table.name), j.volume));
  }

  lemma JobIsValid(src: Db, ids: seq<string>, j: Job)
    requires FitsSchema(src, ids) && j in JobsOf(ids)
    ensures WellFormed(j.table) && Fits(j.table, Scope(RowsOf(src, j.table.name), j.volume))
  {
    JobsAreOfTheseKinds(ids);
    TablesAreWellFormed(j, ids);
    assert Fits(j.table, RowsOf(src, j.table.name));
  }

  function RowsOfVolume(db: Db, name: TableName, id: string): seq<Row> {
    Filter(if name in db then db[name] else [], (r: Row) => "volume_id" in r && r["volume_id"] == Text(id))
  }

  lemma ScopeIsRowsOfVolume(db: Db, name: TableName, id: string)
    ensures Scope(RowsOf(db, name), Some(id)) == RowsOfVolume(db, name, id)
  {
    SameFilter(RowsOf(db, name), (r: Row) => InScope(r, Some(id)), (r: Row) => "volume_id" in r && r["volume_id"] == Text(id));
  }

  function VolumeTable(name: TableName): (t: Table)
    ensures IsVolumeTable(t)
  {
    if name == "nodes" then NODES
    else if name == "blob_refs" then BLOB_REFS
    else if name == "git_objects" then GIT_OBJECTS
    else if name == "git_operations" then GIT_OPERATIONS
    else if name == "git_refs" then GIT_REFS
    else GIT_REMOTES
  }

  /**
   Table by table and by name: after the migration the destination holds, for each project listed, one row per row of
   the source, in order and with the same value in every declared column.
   */
  lemma EveryVolumeTableArrives(src: Db, dst: Db, ids: seq<string>, id: string, name: TableName, columns: seq<Column>)
    requires Unique(ids) && FitsSchema(src, ids) && id in ids
    requires
      || (name == "nodes" && columns ==
            ["volume_id", "path", "parent", "name", "kind", "size", "mode", "mtime", "ctime", "atime", "sha256"])
      || (name == "blob_refs" && columns == ["volume_id", "sha256", "refcount", "size"])
      || (name == "git_objects" && columns == ["volume_id", "hash", "type", "size"])
      || (name == "git_operations" && columns ==
            ["volume_id", "op_type", "state", "source_ref", "onto_sha", "original_tip_sha", "todo", "current_step",
             "total_steps", "conflicts", "resolutions", "created_at", "updated_at"])
      || (name == "git_refs" && columns == ["volume_id", "name", "target", "symbolic"])
      || (name == "git_remotes" && columns == ["volume_id", "name", "url"])
    ensures var from, to := RowsOfVolume(src, name, id), RowsOfVolume(AfterJobs(src, dst, JobsOf(ids)), name, id);
            && |to| == |from|
            && forall i, c :: 0 <= i < |from| && c in columns ==> c in from[i] && c in to[i] && to[i][c] == from[i][c]
  {
    var t := VolumeTable(name);
    assert t.name == name && t.columns == columns;
    VolumeTableArrives(src, dst, ids, id, t);
  }

  lemma {:induction false} SameFilter(rows: seq<Row>, p: Row -> bool, q: Row -> bool)
    requires forall r :: p(r) == q(r)
    ensures Filter(rows, p) == Filter(rows, q)
    decreases |rows|
  {
    if rows != [] {
      SameFilter(rows[..|rows| - 1], p, q);
    }
  }

  /** The same of the registry and the tokens, whole tables. */
  lemma TheRegistryArrives(src: Db, dst: Db, ids: seq<string>, name: TableName, columns: seq<Column>)
    requires Unique(ids) && FitsSchema(src, ids)
    requires
      || (name == "project" && columns == ["id", "owner", "created_at"])
      || (name == "project_member" && columns == ["project_id", "person", "role", "added_by", "added_at"])
      || (name == "oauth_tokens" && columns ==
            ["person", "host", "provider", "token_enc", "scopes", "expires_at", "instance_url"])
    ensures var out := AfterJobs(src, dst, JobsOf(ids));
            var from, to := if name in src then src[name] else [], if name in out then out[name] else [];
            && |to| == |from|
            && forall i, c :: 0 <= i < |from| && c in columns ==> c in from[i] && c in to[i] && to[i][c] == from[i][c]
  {
    var t := if name == "project" then PROJECT else if name == "project_member" then PROJECT_MEMBER else OAUTH_TOKENS;
    assert t.name == name && t.columns == columns;
    TheRegistryHasItsJobs(ids);
    JobArrives(src, dst, ids, Job(t, None, true));
    FilterAll(RowsOf(src, name), (r: Row) => InScope(r, None));
    FilterAll(RowsOf(AfterJobs(src, dst, JobsOf(ids)), name), (r: Row) => InScope(r, None));
  }

  /** Stopping it at any table boundary and starting over leaves the same destination as one uninterrupted run. */
  lemma MigrationIsRestartable(src: Db, dst: Db, ids: seq<string>)
    requires Unique(ids) && FitsSchema(src, ids)
    ensures forall stop :: 0 <= stop <= |JobsOf(ids)| ==>
      AfterJobs(src, AfterJobs(src, dst, JobsOf(ids)[..stop]), JobsOf(ids)) == AfterJobs(src, dst, JobsOf(ids))
  {
    TheCodeIsInOrder(ids);
    TheCodeIsValid(src, ids);
    forall stop | 0 <= stop <= |JobsOf(ids)|
      ensures AfterJobs(src, AfterJobs(src, dst, JobsOf(ids)[..stop]), JobsOf(ids)) == AfterJobs(src, dst, JobsOf(ids))
    {
      RestartGivesTheSame(src, dst, JobsOf(ids), stop);
    }
  }

  /**
   Members copied before their projects, where the destination takes them, would be lost: clearing the projects takes
   every one of them along. A destination without those projects refuses them if it enforces the key.
   */
  lemma MembersFirstAreLost(src: Db, dst: Db)
    ensures var jobs := [Job(PROJECT_MEMBER, None, true), Job(PROJECT, None, true)];
            && RowsOf(AfterJobs(src, dst, jobs), PROJECT_MEMBER.name) == []
            && !InOrder(jobs)
  {
    var member, project := Job(PROJECT_MEMBER, None, true), Job(PROJECT, None, true);
    var jobs := [member, project];
    assert jobs[..1] == [member] && [member][..0] == [];
    assert AfterJobs(src, dst, jobs) == Copied(src, AfterJobs(src, dst, [member]), project);
    CopiedIsCopy(src, AfterJobs(src, dst, [member]), project);
    assert |"project"| == 7 && |"project_member"| == 14;
    assert !Independent(jobs[0], jobs[1]);
  }

  // ---- the content addresses

  /** The content addresses rows refer to. */
  function Addresses(rows: seq<Row>): set<Value> {
    set r | r in rows && SHA256 in r && r[SHA256] != Null :: r[SHA256]
  }

  lemma {:induction false} PlainKeepsAddresses(t: Table, rows: seq<Row>)
    requires WellFormed(t) && SHA256 in t.columns && forall r :: r in rows ==> SHA256 in r
    ensures Addresses(PlainAll(t, rows)) == Addresses(rows)
    decreases |rows|
  {
    if rows != [] {
      var front, last := rows[..|rows| - 1], rows[|rows| - 1];
      assert rows == front + [last];
      PlainKeepsAddresses(t, front);
      assert Plain(t, last)[SHA256] == last[SHA256];
      AddressesAppend(front, last);
      AddressesAppend(PlainAll(t, front), Plain(t, last));
    }
  }

  lemma AddressesAppend(rows: seq<Row>, r: Row)
    ensures Addresses(rows + [r]) == Addresses(rows) + if SHA256 in r && r[SHA256] != Null then {r[SHA256]} else {}
  {
    assert forall x :: x in rows + [r] <==> x in rows || x == r;
  }

  /** After a copy both sides refer to the same content addresses, so that check never ends a migration. */
  lemma AddressesAgreeAfterACopy(src: Db, dst: Db, j: Job)
    requires ValidJob(j, src) && SHA256 in j.table.columns
    ensures Addresses(Scope(RowsOf(Copied(src, dst, j), j.table.name), j.volume))
         == Addresses(Scope(RowsOf(src, j.table.name), j.volume))
  {
    CopyReplacesScope(src, dst, j);
    ScopeFits(j, src);
    PlainKeepsAddresses(j.table, Scope(RowsOf(src, j.table.name), j.volume));
  }
}
