/**
 The snapshot copy: when the batches scan every table of a source view completely, a copy that succeeds
 leaves the empty target tables equal to the view, and counts its rows.
 */
module Copying {
  import opened Outcomes
  import opened Images
  import opened Rows
  import opened Simulation
  import opened Checkpoints

  // ---------------------------------------------------------------- what a copy executes

  function Changes(batches: seq<Result<Batch, ()>>): seq<RowChange> {
    if batches == [] then []
    else
      (if batches[0].Ok? then InsertChanges(batches[0].value.table, batches[0].value.rows) else [])
      + Changes(batches[1..])
  }

  lemma {:induction false} RunAppends(schema: Schema, tables: Tables, p: seq<Statement>, q: seq<Statement>, mid: Tables)
    requires Run(schema, tables, p) == Ok(mid)
    ensures Run(schema, tables, p + q) == Run(schema, mid, q)
    decreases |p|
  {
    if p == [] {
      assert p + q == q;
    } else {
      assert (p + q)[0] == p[0] && (p + q)[1..] == p[1..] + q;
      RunAppends(schema, ExecuteIn(schema, tables, p[0]).value, p[1..], q, mid);
    }
  }

  ghost predicate AllValid(changes: seq<RowChange>) {
    forall i :: 0 <= i < |changes| ==> ValidChange(changes[i])
  }

  lemma {:induction false} ValidBatchInserts(b: Batch)
    requires ValidBatch(b)
    ensures AllValid(InsertChanges(b.table, b.rows))
  {
    forall i | 0 <= i < |b.rows|
      ensures ValidChange(InsertChanges(b.table, b.rows)[i])
    {
      assert CompleteImage(b.rows[i]);
    }
  }

  lemma {:induction false} BatchRuns(schema: Schema, source: string, scope: seq<TableId>, item: Result<Batch, ()>,
                                     at: Progress, next: Progress)
    requires CopyNext(schema, source, scope, item, at) == Ok(next)
    ensures item.Ok? && AllValid(InsertChanges(item.value.table, item.value.rows))
    ensures
      var plan := PlanChanges(InsertChanges(item.value.table, item.value.rows));
      plan.Ok? && Run(schema, at.tables, plan.value) == Ok(next.tables)
    ensures next.rows == at.rows + |item.value.rows|
  {
    ValidBatchInserts(item.value);
  }

  /** A copy that succeeds has run the inserts of all its batches, and counted them. */
  lemma {:induction false} CopyRuns(schema: Schema, source: string, scope: seq<TableId>,
                                    batches: seq<Result<Batch, ()>>, at: Progress, end: Progress)
    requires CopyAll(schema, source, scope, batches, at) == Ok(end)
    ensures AllValid(Changes(batches)) && PlanChanges(Changes(batches)).Ok?
    ensures Run(schema, at.tables, PlanChanges(Changes(batches)).value) == Ok(end.tables)
    ensures end.rows == at.rows + |Changes(batches)|
    decreases |batches|
  {
    if batches != [] {
      var next := CopyNext(schema, source, scope, batches[0], at).value;
      BatchRuns(schema, source, scope, batches[0], at, next);
      CopyRuns(schema, source, scope, batches[1..], next, end);
      var first, rest := InsertChanges(batches[0].value.table, batches[0].value.rows), Changes(batches[1..]);
      TraverseAppends(PlanChange, first, rest);
      RunAppends(schema, at.tables, PlanChanges(first).value, PlanChanges(rest).value, next.tables);
    }
  }

  // ---------------------------------------------------------------- what a scan is

  ghost predicate Enumerates(order: seq<Row>, rows: set<Row>) {
    && (forall i, j :: 0 <= i < j < |order| ==> order[i] != order[j])
    && (forall r :: r in rows <==> r in order)
  }

  ghost predicate ScansInOrder(def: TableDef, order: seq<Row>, images: seq<Image>) {
    && |order| == |images|
    && forall i :: 0 <= i < |images| ==> Describes(def, images[i]) && Agrees(order[i], images[i])
  }

  /** The images are the rows of a table, each exactly once. */
  ghost predicate TableScan(def: TableDef, rows: set<Row>, images: seq<Image>) {
    exists order :: Enumerates(order, rows) && ScansInOrder(def, order, images)
  }

  function EmptyTables(schema: Schema): Tables {
    map t | t in schema :: {}
  }

  function Prefix(order: seq<Row>, k: nat): set<Row>
    requires k <= |order|
  {
    set i | 0 <= i < k :: order[i]
  }

  lemma {:induction false} LogStep(schema: Schema, a: Tables, c: RowChange, mid: Tables, rest: seq<RowChange>,
                                   end: Tables)
    requires LoggedIn(schema, a, c, mid) && LoggedAll(schema, mid, rest, end)
    ensures LoggedAll(schema, a, [c] + rest, end)
  {
    var changes := [c] + rest;
    assert changes[0] == c && changes[1..] == rest;
  }

  lemma {:induction false} NextRow(def: TableDef, rows: set<Row>, order: seq<Row>, image: Image, t: TableId, k: nat)
    requires KeyedTable(def, rows) && Enumerates(order, rows) && k < |order|
    requires Describes(def, image) && Agrees(order[k], image)
    ensures Logged(def, Prefix(order, k), RowChange(Insert, t, None, Some(image)), Prefix(order, k + 1))
  {
    var row, before := order[k], Prefix(order, k);
    assert row in rows;
    forall r | r in before
      ensures KeyOf(def, r) != KeyOf(def, row)
    {
      assert r in order && r in rows && r != row;
    }
    assert Prefix(order, k + 1) == before + {row};
    assert Inserts(def, before, RowChange(Insert, t, None, Some(image)), Prefix(order, k + 1), row);
  }

  lemma {:induction false} InsertsStep(t: TableId, images: seq<Image>, k: nat, rest: seq<RowChange>)
    requires k < |images|
    ensures InsertChanges(t, images[k..]) + rest
            == [RowChange(Insert, t, None, Some(images[k]))] + (InsertChanges(t, images[k + 1..]) + rest)
  {
  }

  lemma {:induction false} ScanStep(schema: Schema, tables: Tables, t: TableId, rows: set<Row>, order: seq<Row>,
                                    image: Image, k: nat, rest: seq<RowChange>, end: Tables)
    requires t in schema && t in tables && KeyedTable(schema[t], rows)
    requires Enumerates(order, rows) && k < |order| && Describes(schema[t], image) && Agrees(order[k], image)
    requires LoggedAll(schema, tables[t := Prefix(order, k + 1)], rest, end)
    ensures LoggedAll(schema, tables[t := Prefix(order, k)], [RowChange(Insert, t, None, Some(image))] + rest, end)
  {
    var before, next := tables[t := Prefix(order, k)], tables[t := Prefix(order, k + 1)];
    NextRow(schema[t], rows, order, image, t, k);
    assert next == before[t := next[t]];
    LogStep(schema, before, RowChange(Insert, t, None, Some(image)), next, rest, end);
  }

  /** Inserting a scanned table's rows one by one builds that table; the log goes on with `rest`. */
  lemma {:induction false} ScanBuildsTable(schema: Schema, tables: Tables, t: TableId, rows: set<Row>, order: seq<Row>,
                                           images: seq<Image>, k: nat, rest: seq<RowChange>, end: Tables)
    requires t in schema && t in tables && KeyedTable(schema[t], rows)
    requires Enumerates(order, rows) && ScansInOrder(schema[t], order, images) && k <= |order|
    requires LoggedAll(schema, tables[t := rows], rest, end)
    ensures LoggedAll(schema, tables[t := Prefix(order, k)], InsertChanges(t, images[k..]) + rest, end)
    decreases |order| - k
  {
    if k == |order| {
      assert Prefix(order, k) == rows;
      assert InsertChanges(t, images[k..]) + rest == rest;
    } else {
      ScanBuildsTable(schema, tables, t, rows, order, images, k + 1, rest, end);
      InsertsStep(t, images, k, rest);
      ScanStep(schema, tables, t, rows, order, images[k], k, InsertChanges(t, images[k + 1..]) + rest, end);
    }
  }

  function AllInserts(scope: seq<TableId>, scans: seq<seq<Image>>): seq<RowChange>
    requires |scope| == |scans|
  {
    if scope == [] then [] else InsertChanges(scope[0], scans[0]) + AllInserts(scope[1..], scans[1..])
  }

  /** One complete scan per table in scope. */
  ghost predicate Scans(schema: Schema, view: Tables, scope: seq<TableId>, scans: seq<seq<Image>>) {
    && |scope| == |scans|
    && (forall i, j :: 0 <= i < j < |scope| ==> scope[i] != scope[j])
    && forall i :: 0 <= i < |scope| ==>
         scope[i] in schema && scope[i] in view && TableScan(schema[scope[i]], view[scope[i]], scans[i])
  }

  /** `tables` with the tables in scope replaced by the view's. */
  ghost function Filled(tables: Tables, view: Tables, scope: seq<TableId>): Tables {
    map t | t in tables :: if t in scope && t in view then view[t] else tables[t]
  }

  lemma {:induction false} FilledStep(tables: Tables, view: Tables, scope: seq<TableId>)
    requires scope != [] && scope[0] in tables && scope[0] in view && scope[0] !in scope[1..]
    ensures Filled(tables[scope[0] := view[scope[0]]], view, scope[1..]) == Filled(tables, view, scope)
  {
    assert forall t :: t in scope <==> t == scope[0] || t in scope[1..];
  }

  lemma {:induction false} ScansBuild(schema: Schema, tables: Tables, view: Tables, scope: seq<TableId>,
                                      scans: seq<seq<Image>>)
    requires Scans(schema, view, scope, scans) && KeyedTables(schema, view) && tables.Keys == schema.Keys
    requires forall i :: 0 <= i < |scope| ==> tables[scope[i]] == {}
    ensures LoggedAll(schema, tables, AllInserts(scope, scans), Filled(tables, view, scope))
    decreases |scope|
  {
    if scope == [] {
      assert Filled(tables, view, scope) == tables;
    } else {
      var t, rows, images := scope[0], view[scope[0]], scans[0];
      var next := tables[t := rows];
      assert TableScan(schema[t], rows, images) && KeyedTable(schema[t], rows);
      var order :| Enumerates(order, rows) && ScansInOrder(schema[t], order, images);
      ScansBuild(schema, next, view, scope[1..], scans[1..]);
      FilledStep(tables, view, scope);
      assert Prefix(order, 0) == {} && images[0..] == images;
      assert tables[t := Prefix(order, 0)] == tables;
      ScanBuildsTable(schema, tables, t, rows, order, images, 0, AllInserts(scope[1..], scans[1..]),
                      Filled(tables, view, scope));
    }
  }

  // ---------------------------------------------------------------- the copy's result

  ghost predicate Covers(schema: Schema, scope: seq<TableId>) {
    forall t :: t in schema ==> t in scope
  }

  /** The batches carry one complete scan of each table of the view. */
  ghost predicate CarriesView(schema: Schema, view: Tables, scope: seq<TableId>, batches: seq<Result<Batch, ()>>) {
    exists scans :: Scans(schema, view, scope, scans) && Changes(batches) == AllInserts(scope, scans)
  }

  /** The reader failed somewhere. */
  ghost predicate BreaksOff(batches: seq<Result<Batch, ()>>) {
    exists i :: 0 <= i < |batches| && batches[i].Err?
  }

  /** A copy never succeeds on a stream that breaks off. */
  lemma {:induction false} BrokenCopyFails(schema: Schema, source: string, scope: seq<TableId>,
                                           batches: seq<Result<Batch, ()>>, at: Progress)
    requires BreaksOff(batches)
    ensures CopyAll(schema, source, scope, batches, at).Err?
    decreases |batches|
  {
    var next := CopyNext(schema, source, scope, batches[0], at);
    if next.Ok? {
      var i :| 0 <= i < |batches| && batches[i].Err?;
      assert batches[1..][i - 1].Err?;
      BrokenCopyFails(schema, source, scope, batches[1..], next.value);
    }
  }

  /** A successful copy of a view into empty tables leaves the sink equal to the view. */
  lemma {:induction false} CopyEqualsView(schema: Schema, source: string, view: Tables, scope: seq<TableId>,
                                          batches: seq<Result<Batch, ()>>, tables: Tables, end: Progress)
    requires KeyedTables(schema, view) && Covers(schema, scope) && CarriesView(schema, view, scope, batches)
    requires tables.Keys == schema.Keys && TargetsEmpty(tables, scope)
    requires CopyAll(schema, source, scope, batches, Progress(0, 0, tables)) == Ok(end)
    ensures end.tables == ProjectAll(schema, view)
  {
    ViewIsBuilt(schema, view, scope, batches);
    CopyRuns(schema, source, scope, batches, Progress(0, 0, tables), end);
    EmptyIsKeyed(schema, view);
    TransactionIsSimulated(schema, EmptyTables(schema), Changes(batches), view);
    EmptyTargets(schema, scope, tables);
  }

  lemma {:induction false} EmptyIsKeyed(schema: Schema, view: Tables)
    requires KeyedTables(schema, view)
    ensures KeyedTables(schema, EmptyTables(schema))
  {
  }

  lemma {:induction false} ViewIsBuilt(schema: Schema, view: Tables, scope: seq<TableId>,
                                       batches: seq<Result<Batch, ()>>)
    requires KeyedTables(schema, view) && Covers(schema, scope) && CarriesView(schema, view, scope, batches)
    ensures LoggedAll(schema, EmptyTables(schema), Changes(batches), view)
  {
    var scans :| Scans(schema, view, scope, scans) && Changes(batches) == AllInserts(scope, scans);
    ScansBuildView(schema, view, scope, scans);
  }

  lemma {:induction false} ScansBuildView(schema: Schema, view: Tables, scope: seq<TableId>, scans: seq<seq<Image>>)
    requires KeyedTables(schema, view) && Covers(schema, scope) && Scans(schema, view, scope, scans)
    ensures LoggedAll(schema, EmptyTables(schema), AllInserts(scope, scans), view)
  {
    var empty := EmptyTables(schema);
    ScansBuild(schema, empty, view, scope, scans);
    assert Filled(empty, view, scope) == view;
  }

  lemma {:induction false} EmptyTargets(schema: Schema, scope: seq<TableId>, tables: Tables)
    requires Covers(schema, scope) && tables.Keys == schema.Keys && TargetsEmpty(tables, scope)
    ensures tables == ProjectAll(schema, EmptyTables(schema))
  {
    forall t | t in schema
      ensures tables[t] == {} && Project(schema[t], {}) == {}
    {
      var i :| 0 <= i < |scope| && scope[i] == t;
    }
  }

  function TotalRows(view: Tables, scope: seq<TableId>): nat
    requires forall i :: 0 <= i < |scope| ==> scope[i] in view
  {
    if scope == [] then 0 else |view[scope[0]]| + TotalRows(view, scope[1..])
  }

  lemma {:induction false} EnumerationSize(order: seq<Row>, rows: set<Row>)
    requires Enumerates(order, rows)
    ensures |order| == |rows|
    decreases |order|
  {
    if order == [] {
      assert rows == {};
    } else {
      var n := |order| - 1;
      var front, last := order[..n], order[n];
      forall r
        ensures r in rows - {last} <==> r in front
      {
        assert order == front + [last];
      }
      EnumerationSize(front, rows - {last});
      assert last in rows && |rows - {last}| == |rows| - 1;
    }
  }

  lemma {:induction false} ScansSize(schema: Schema, view: Tables, scope: seq<TableId>, scans: seq<seq<Image>>)
    requires Scans(schema, view, scope, scans)
    ensures |AllInserts(scope, scans)| == TotalRows(view, scope)
    decreases |scope|
  {
    if scope != [] {
      assert TableScan(schema[scope[0]], view[scope[0]], scans[0]);
      var order :| Enumerates(order, view[scope[0]]) && ScansInOrder(schema[scope[0]], order, scans[0]);
      EnumerationSize(order, view[scope[0]]);
      ScansSize(schema, view, scope[1..], scans[1..]);
    }
  }

  /** And it counts exactly the rows of the view's tables. */
  lemma {:induction false} CopyCountsView(schema: Schema, source: string, view: Tables, scope: seq<TableId>,
                                          batches: seq<Result<Batch, ()>>, tables: Tables, end: Progress)
    requires CarriesView(schema, view, scope, batches) && forall i :: 0 <= i < |scope| ==> scope[i] in view
    requires CopyAll(schema, source, scope, batches, Progress(0, 0, tables)) == Ok(end)
    ensures end.rows == TotalRows(view, scope)
  {
    var scans :| Scans(schema, view, scope, scans) && Changes(batches) == AllInserts(scope, scans);
    ScansSize(schema, view, scope, scans);
    CopyRuns(schema, source, scope, batches, Progress(0, 0, tables), end);
  }
}
