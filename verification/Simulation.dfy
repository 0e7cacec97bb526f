/**
 The sink simulates the source: when a sink table equals the source table on the columns that are not
 generated, executing the statements planned for a logged transaction leaves them equal.
 */
module Simulation {
  import opened Outcomes
  import opened Images
  import opened Rows

  // ---------------------------------------------------------------- the source side

  /** A full image of a table: every column once, with the table's key and generated columns. */
  ghost predicate Describes(def: TableDef, image: Image) {
    && (forall i :: 0 <= i < |image| ==>
          && image[i].name in def.columns
          && (image[i].generated <==> image[i].name in def.generated)
          && (image[i].key.Some? <==> image[i].name in def.key))
    && forall n :: n in def.columns ==> NameIn(image, n)
  }

  /** A stored row carries the values an image gives. */
  ghost predicate Agrees(row: Row, image: Image) {
    forall i :: 0 <= i < |image| && (image[i].datum.Value? || image[i].datum.Null?) ==>
      image[i].name in row && Bind(image[i].datum) == Ok(row[image[i].name])
  }

  /** The columns an UPDATE marks as unchanged keep their values. */
  ghost predicate Retains(row: Row, next: Row, after: Image) {
    forall i :: 0 <= i < |after| && after[i].datum.Unchanged? ==>
      after[i].name in row && after[i].name in next && next[after[i].name] == row[after[i].name]
  }

  ghost predicate FullRow(def: TableDef, row: Row) {
    row.Keys == def.columns
  }

  ghost predicate UniqueKeys(def: TableDef, rows: set<Row>) {
    forall r, s :: r in rows && s in rows && KeyOf(def, r) == KeyOf(def, s) ==> r == s
  }

  ghost predicate KeyedTable(def: TableDef, rows: set<Row>) {
    UniqueKeys(def, rows) && forall r :: r in rows ==> FullRow(def, r)
  }

  ghost predicate Inserts(def: TableDef, rows: set<Row>, c: RowChange, next: set<Row>, row: Row) {
    && c.after.Some? && Describes(def, c.after.value) && Agrees(row, c.after.value)
    && FullRow(def, row) && FreshKey(def, rows, row)
    && next == rows + {row}
  }

  ghost predicate Updates(def: TableDef, rows: set<Row>, c: RowChange, next: set<Row>, row: Row, patched: Row) {
    && c.before.Some? && Describes(def, c.before.value) && row in rows && Agrees(row, c.before.value)
    && c.after.Some? && Describes(def, c.after.value) && Agrees(patched, c.after.value)
    && Retains(row, patched, c.after.value)
    && FullRow(def, patched) && FreshKey(def, rows - {row}, patched)
    && next == rows - {row} + {patched}
  }

  ghost predicate Deletes(def: TableDef, rows: set<Row>, c: RowChange, next: set<Row>, row: Row) {
    && c.before.Some? && Describes(def, c.before.value) && row in rows && Agrees(row, c.before.value)
    && next == rows - {row}
  }

  /** The source applied the logged change: it turned `rows` into `next`. */
  ghost predicate Logged(def: TableDef, rows: set<Row>, c: RowChange, next: set<Row>) {
    match c.operation
    case Insert => exists row :: Inserts(def, rows, c, next, row)
    case Update => exists row, patched :: Updates(def, rows, c, next, row, patched)
    case Delete => exists row :: Deletes(def, rows, c, next, row)
  }

  // ---------------------------------------------------------------- the sink's view

  function Strip(def: TableDef, row: Row): Row {
    map n | n in row && n !in def.generated :: row[n]
  }

  ghost function Project(def: TableDef, rows: set<Row>): set<Row> {
    set r | r in rows :: Strip(def, r)
  }

  lemma {:induction false} StripKeepsKey(def: TableDef, row: Row)
    requires GoodDef(def)
    ensures KeyOf(def, Strip(def, row)) == KeyOf(def, row)
  {
    assert forall n :: n in def.key ==> n !in def.generated;
  }

  /** Rows that differ differ in the sink too, because keys are never generated. */
  lemma {:induction false} StripIsInjective(def: TableDef, rows: set<Row>, r: Row, s: Row)
    requires GoodDef(def) && UniqueKeys(def, rows) && r in rows && s in rows
    ensures Strip(def, r) == Strip(def, s) <==> r == s
  {
    StripKeepsKey(def, r);
    StripKeepsKey(def, s);
  }

  lemma {:induction false} ProjectWithout(def: TableDef, rows: set<Row>, row: Row)
    requires GoodDef(def) && UniqueKeys(def, rows) && row in rows
    ensures Project(def, rows - {row}) == Project(def, rows) - {Strip(def, row)}
  {
    forall r | r in rows
      ensures Strip(def, r) == Strip(def, row) <==> r == row
    {
      StripIsInjective(def, rows, r, row);
    }
  }

  lemma {:induction false} ProjectWith(def: TableDef, rows: set<Row>, row: Row)
    ensures Project(def, rows + {row}) == Project(def, rows) + {Strip(def, row)}
  {
    assert forall r :: r in rows + {row} <==> r in rows || r == row;
  }

  lemma {:induction false} ProjectedKeys(def: TableDef, rows: set<Row>, row: Row)
    requires GoodDef(def)
    ensures FreshKey(def, Project(def, rows), Strip(def, row)) <==> FreshKey(def, rows, row)
  {
    StripKeepsKey(def, row);
    forall r | r in rows
      ensures KeyOf(def, Strip(def, r)) == KeyOf(def, r) && Strip(def, r) in Project(def, rows)
    {
      StripKeepsKey(def, r);
    }
  }

  lemma {:induction false} InsertedTable(def: TableDef, rows: set<Row>, row: Row)
    requires GoodDef(def) && KeyedTable(def, rows) && FullRow(def, row) && FreshKey(def, rows, row)
    ensures KeyedTable(def, rows + {row})
    ensures FreshKey(def, Project(def, rows), Strip(def, row))
    ensures Project(def, rows + {row}) == Project(def, rows) + {Strip(def, row)}
  {
    ProjectedKeys(def, rows, row);
    ProjectWith(def, rows, row);
  }

  lemma {:induction false} UpdatedTable(def: TableDef, rows: set<Row>, row: Row, patched: Row)
    requires GoodDef(def) && KeyedTable(def, rows) && row in rows
    requires FullRow(def, patched) && FreshKey(def, rows - {row}, patched)
    ensures KeyedTable(def, rows - {row} + {patched})
    ensures FreshKey(def, Project(def, rows) - {Strip(def, row)}, Strip(def, patched))
    ensures Project(def, rows - {row} + {patched}) == Project(def, rows) - {Strip(def, row)} + {Strip(def, patched)}
  {
    ProjectWithout(def, rows, row);
    InsertedTable(def, rows - {row}, patched);
  }

  // ---------------------------------------------------------------- cells

  ghost predicate DistinctCells(cells: Cells) {
    forall i, j :: 0 <= i < j < |cells| ==> cells[i].name != cells[j].name
  }

  ghost predicate Named(cells: Cells, n: Name) {
    exists i :: 0 <= i < |cells| && cells[i].name == n
  }

  lemma {:induction false} AssignAt(row: Row, cells: Cells, n: Name)
    ensures n in Assign(row, cells) <==> n in row || Named(cells, n)
    ensures n in row && !Named(cells, n) ==> Assign(row, cells)[n] == row[n]
    decreases |cells|
  {
    if cells != [] {
      var next, rest := row[cells[0].name := cells[0].cell], cells[1..];
      AssignAt(next, rest, n);
      assert Named(cells, n) <==> cells[0].name == n || Named(rest, n) by {
        assert forall i :: 0 < i < |cells| ==> cells[i] == rest[i - 1];
      }
    }
  }

  lemma {:induction false} AssignCell(row: Row, cells: Cells, i: nat)
    requires DistinctCells(cells) && i < |cells|
    ensures cells[i].name in Assign(row, cells) && Assign(row, cells)[cells[i].name] == cells[i].cell
    decreases |cells|
  {
    var next, rest := row[cells[0].name := cells[0].cell], cells[1..];
    if i == 0 {
      AssignAt(next, rest, cells[0].name);
    } else {
      AssignCell(next, rest, i - 1);
    }
  }

  lemma {:induction false} BoundCells(row: Image)
    requires BindColumns(row).Ok?
    ensures |BindColumns(row).value| == |row|
    ensures forall i :: 0 <= i < |row| ==>
              BindColumns(row).value[i].name == row[i].name && Bind(row[i].datum) == Ok(BindColumns(row).value[i].cell)
  {
    if row != [] {
      BoundCells(row[1..]);
    }
  }

  ghost predicate DistinctNames(row: Image) {
    forall i, j :: 0 <= i < j < |row| ==> row[i].name != row[j].name
  }

  lemma {:induction false} WritableKeepsColumns(row: Image)
    requires DistinctNames(row)
    ensures forall c :: c in WritableColumns(row) <==> c in row && Writable(c)
    ensures DistinctNames(WritableColumns(row))
  {
    if row != [] {
      WritableKeepsColumns(row[1..]);
      assert row == [row[0]] + row[1..];
      HeadIsDistinct(row, WritableColumns(row[1..]));
    }
  }

  lemma {:induction false} KeyKeepsColumns(row: Image)
    requires DistinctNames(row)
    ensures forall c :: c in KeyColumns(row) <==> c in row && c.key.Some?
    ensures DistinctNames(KeyColumns(row))
  {
    if row != [] {
      KeyKeepsColumns(row[1..]);
      assert row == [row[0]] + row[1..];
      HeadIsDistinct(row, KeyColumns(row[1..]));
    }
  }

  lemma {:induction false} HeadIsDistinct(row: Image, kept: Image)
    requires row != [] && DistinctNames(row) && DistinctNames(kept)
    requires forall c :: c in kept ==> c in row[1..]
    ensures DistinctNames([row[0]] + kept)
  {
    forall j | 0 <= j < |kept|
      ensures row[0].name != kept[j].name
    {
      assert kept[j] in row[1..];
    }
  }

  lemma {:induction false} DistinctBound(columns: Image)
    requires DistinctNames(columns) && BindColumns(columns).Ok?
    ensures DistinctCells(BindColumns(columns).value)
  {
    BoundCells(columns);
  }

  /** A keyed validated image always has a writable column. */
  lemma {:induction false} KeyIsWritable(row: Image, operation: Operation, isBefore: bool)
    requires ValidImage(row, operation, isBefore) && HasKey(row)
    ensures WritableColumns(row) != []
  {
    WritableKeepsColumns(row);
    var i :| 0 <= i < |row| && row[i].key.Some?;
    assert row[i] in WritableColumns(row);
  }

  /** What the planned assignments leave in one column of an image. */
  lemma {:induction false} AssignedColumn(base: Row, image: Image, cells: Cells, k: nat)
    requires DistinctNames(image) && k < |image|
    requires BindColumns(WritableColumns(image)) == Ok(cells)
    ensures
      var n, result := image[k].name, Assign(base, cells);
      if Writable(image[k])
      then n in result && Bind(image[k].datum) == Ok(result[n]) && (image[k].datum.Value? || image[k].datum.Null?)
      else (n in result <==> n in base) && (n in base ==> result[n] == base[n])
  {
    var columns := WritableColumns(image);
    WritableKeepsColumns(image);
    BoundCells(columns);
    if Writable(image[k]) {
      DistinctBound(columns);
      var j :| 0 <= j < |columns| && columns[j] == image[k];
      AssignCell(base, cells, j);
    } else {
      AssignAt(base, cells, image[k].name);
      forall j | 0 <= j < |cells|
        ensures cells[j].name != image[k].name
      {
        assert columns[j] in image;
      }
    }
  }

  lemma {:induction false} AssignmentsAreKnown(def: TableDef, image: Image, cells: Cells)
    requires DistinctNames(image) && Describes(def, image)
    requires BindColumns(WritableColumns(image)) == Ok(cells)
    ensures KnownColumns(def, cells)
  {
    WritableKeepsColumns(image);
    BoundCells(WritableColumns(image));
    forall i | 0 <= i < |cells|
      ensures cells[i].name in def.columns - def.generated
    {
      assert WritableColumns(image)[i] in image;
    }
  }

  /** Assigning the writable columns of an image to a row gives the row the image describes. */
  lemma {:induction false} AssignedRow(def: TableDef, base: Row, row: Row, image: Image, cells: Cells)
    requires DistinctNames(image) && Describes(def, image) && Agrees(row, image) && FullRow(def, row)
    requires BindColumns(WritableColumns(image)) == Ok(cells)
    requires base.Keys == def.columns - def.generated
    requires forall i :: 0 <= i < |image| && !image[i].generated && !Writable(image[i]) ==>
               base[image[i].name] == row[image[i].name]
    ensures Assign(base, cells) == Strip(def, row)
  {
    AssignmentsAreKnown(def, image, cells);
    forall n
      ensures n in Assign(base, cells) <==> n in def.columns - def.generated
    {
      AssignAt(base, cells, n);
    }
    forall n | n in def.columns - def.generated
      ensures Assign(base, cells)[n] == row[n]
    {
      var k :| 0 <= k < |image| && image[k].name == n;
      AssignedColumn(base, image, cells, k);
    }
  }

  /** The planned locator is the key the before image carries. */
  lemma {:induction false} LocatorCarriesKey(def: TableDef, row: Row, before: Image, locator: Cells)
    requires DistinctNames(before) && Describes(def, before) && Agrees(row, before)
    requires BindColumns(KeyColumns(before)) == Ok(locator)
    requires forall i :: 0 <= i < |before| && before[i].key.Some? ==> before[i].datum.Value?
    ensures forall i :: 0 <= i < |locator| ==>
              locator[i].name in def.key && locator[i].name in row && row[locator[i].name] == locator[i].cell
    ensures forall n :: n in def.key && n in def.columns ==> Named(locator, n)
  {
    var keys := KeyColumns(before);
    KeyKeepsColumns(before);
    BoundCells(keys);
    forall i | 0 <= i < |locator|
      ensures locator[i].name in def.key && locator[i].name in row && row[locator[i].name] == locator[i].cell
    {
      assert keys[i] in before;
    }
    forall n | n in def.key && n in def.columns
      ensures Named(locator, n)
    {
      var k :| 0 <= k < |before| && before[k].name == n;
      var i :| 0 <= i < |keys| && keys[i] == before[k];
      assert locator[i].name == n;
    }
  }

  /** The locator finds exactly the rows with the key of `row`. */
  lemma {:induction false} LocatorFindsKey(def: TableDef, row: Row, locator: Cells, other: Row)
    requires GoodDef(def) && FullRow(def, row) && FullRow(def, other)
    requires forall i :: 0 <= i < |locator| ==>
               locator[i].name in def.key && locator[i].name in row && row[locator[i].name] == locator[i].cell
    requires forall n :: n in def.key && n in def.columns ==> Named(locator, n)
    ensures Located(Strip(def, other), locator) <==> KeyOf(def, other) == KeyOf(def, row)
  {
    if Located(Strip(def, other), locator) {
      forall n | n in def.key
        ensures other[n] == row[n]
      {
        assert Named(locator, n);
      }
    }
    if KeyOf(def, other) == KeyOf(def, row) {
      forall i | 0 <= i < |locator|
        ensures locator[i].name in Strip(def, other) && Strip(def, other)[locator[i].name] == locator[i].cell
      {
        assert KeyOf(def, other)[locator[i].name] == KeyOf(def, row)[locator[i].name];
      }
    }
  }

  lemma {:induction false} LocatorHits(def: TableDef, rows: set<Row>, row: Row, before: Image, locator: Cells)
    requires GoodDef(def) && KeyedTable(def, rows) && row in rows
    requires DistinctNames(before) && Describes(def, before) && Agrees(row, before)
    requires BindColumns(KeyColumns(before)) == Ok(locator)
    requires forall i :: 0 <= i < |before| && before[i].key.Some? ==> before[i].datum.Value?
    ensures Hits(Project(def, rows), locator) == {Strip(def, row)}
  {
    LocatorCarriesKey(def, row, before, locator);
    forall r | r in rows
      ensures Located(Strip(def, r), locator) <==> r == row
    {
      assert FullRow(def, r) && FullRow(def, row);
      LocatorFindsKey(def, row, locator, r);
    }
  }

  // ---------------------------------------------------------------- one statement

  lemma {:induction false} ImageFacts(image: Image, operation: Operation, isBefore: bool)
    requires ValidImage(image, operation, isBefore)
    ensures DistinctNames(image)
    ensures forall i :: 0 <= i < |image| ==>
              && (image[i].key.Some? ==> image[i].datum.Value?)
              && (!isBefore ==> !image[i].datum.Unavailable?)
              && (operation == Insert ==> !image[i].datum.Unavailable? && !image[i].datum.Unchanged?)
  {
    assert forall i :: 0 <= i < |image| ==> ValidColumn(image[i], operation, isBefore);
  }

  ghost predicate PlansAs(c: RowChange, s: Statement) {
    && s.operation == c.operation && s.table == c.table
    && (!c.operation.Delete? ==> c.after.Some? && BindColumns(WritableColumns(c.after.value)) == Ok(s.assignments))
    && (c.operation.Delete? ==> s.assignments == [])
    && (!c.operation.Insert? ==> c.before.Some? && BindColumns(KeyColumns(c.before.value)) == Ok(s.locator))
  }

  lemma {:induction false} PlanShape(c: RowChange, s: Statement)
    requires PlanChange(c) == Ok(s)
    ensures PlansAs(c, s)
  {
  }

  lemma {:induction false} ExecuteInsert(def: TableDef, rows: set<Row>, s: Statement, row: Row)
    requires s.operation == Insert && KnownColumns(def, s.assignments)
    requires Assign(Defaults(def), s.assignments) == row && FreshKey(def, rows, row)
    ensures Execute(def, rows, s) == Ok(rows + {row})
  {
  }

  lemma {:induction false} ExecuteUpdate(def: TableDef, rows: set<Row>, s: Statement, hit: Row, patched: Row)
    requires s.operation == Update && KnownColumns(def, s.assignments)
    requires Hits(rows, s.locator) == {hit}
    requires Assign(hit, s.assignments) == patched && FreshKey(def, rows - {hit}, patched)
    ensures Execute(def, rows, s) == Ok(rows - {hit} + {patched})
  {
    assert Moved({hit}, s.assignments) == {patched};
  }

  lemma {:induction false} InsertedRow(def: TableDef, row: Row, after: Image, cells: Cells)
    requires ValidImage(after, Insert, false) && Describes(def, after) && FullRow(def, row) && Agrees(row, after)
    requires BindColumns(WritableColumns(after)) == Ok(cells)
    ensures Assign(Defaults(def), cells) == Strip(def, row) && KnownColumns(def, cells)
  {
    ImageFacts(after, Insert, false);
    AssignmentsAreKnown(def, after, cells);
    AssignedRow(def, Defaults(def), row, after, cells);
  }

  lemma {:induction false} UpdatedRow(def: TableDef, row: Row, patched: Row, after: Image, cells: Cells)
    requires ValidImage(after, Update, false) && Describes(def, after) && FullRow(def, row) && FullRow(def, patched)
    requires Agrees(patched, after) && Retains(row, patched, after)
    requires BindColumns(WritableColumns(after)) == Ok(cells)
    ensures Assign(Strip(def, row), cells) == Strip(def, patched)
    ensures KnownColumns(def, cells)
  {
    ImageFacts(after, Update, false);
    AssignmentsAreKnown(def, after, cells);
    AssignedRow(def, Strip(def, row), patched, after, cells);
  }

  lemma {:induction false} SimulateInsert(def: TableDef, rows: set<Row>, c: RowChange, next: set<Row>, row: Row,
                                          s: Statement)
    requires GoodDef(def) && KeyedTable(def, rows) && ValidChange(c) && PlansAs(c, s)
    requires c.operation == Insert && Inserts(def, rows, c, next, row)
    ensures KeyedTable(def, next) && Execute(def, Project(def, rows), s) == Ok(Project(def, next))
  {
    InsertedRow(def, row, c.after.value, s.assignments);
    InsertedTable(def, rows, row);
    ExecuteInsert(def, Project(def, rows), s, Strip(def, row));
  }

  lemma {:induction false} SimulateDelete(def: TableDef, rows: set<Row>, c: RowChange, next: set<Row>, row: Row,
                                          s: Statement)
    requires GoodDef(def) && KeyedTable(def, rows) && ValidChange(c) && PlansAs(c, s)
    requires c.operation == Delete && Deletes(def, rows, c, next, row)
    ensures KeyedTable(def, next) && Execute(def, Project(def, rows), s) == Ok(Project(def, next))
  {
    ImageFacts(c.before.value, Delete, true);
    LocatorHits(def, rows, row, c.before.value, s.locator);
    ProjectWithout(def, rows, row);
  }

  lemma {:induction false} SimulateUpdate(def: TableDef, rows: set<Row>, c: RowChange, next: set<Row>,
                                          row: Row, patched: Row, s: Statement)
    requires GoodDef(def) && KeyedTable(def, rows) && ValidChange(c) && PlansAs(c, s)
    requires c.operation == Update && Updates(def, rows, c, next, row, patched)
    ensures KeyedTable(def, next) && Execute(def, Project(def, rows), s) == Ok(Project(def, next))
  {
    ImageFacts(c.before.value, Update, true);
    LocatorHits(def, rows, row, c.before.value, s.locator);
    UpdatedRow(def, row, patched, c.after.value, s.assignments);
    UpdatedTable(def, rows, row, patched);
    ExecuteUpdate(def, Project(def, rows), s, Strip(def, row), Strip(def, patched));
  }

  /** One planned change never fails on an equal sink table, and keeps it equal. */
  lemma {:induction false} ChangeIsSimulated(def: TableDef, rows: set<Row>, c: RowChange, next: set<Row>, s: Statement)
    requires GoodDef(def) && KeyedTable(def, rows) && ValidChange(c) && PlanChange(c) == Ok(s)
    requires Logged(def, rows, c, next)
    ensures KeyedTable(def, next) && Execute(def, Project(def, rows), s) == Ok(Project(def, next))
  {
    PlanShape(c, s);
    match c.operation {
      case Insert =>
        var row :| Inserts(def, rows, c, next, row);
        SimulateInsert(def, rows, c, next, row, s);
      case Update =>
        var row, patched :| Updates(def, rows, c, next, row, patched);
        SimulateUpdate(def, rows, c, next, row, patched, s);
      case Delete =>
        var row :| Deletes(def, rows, c, next, row);
        SimulateDelete(def, rows, c, next, row, s);
    }
  }

  // ---------------------------------------------------------------- one transaction

  ghost predicate KeyedTables(schema: Schema, tables: Tables) {
    && tables.Keys == schema.Keys
    && forall t :: t in schema ==> GoodDef(schema[t]) && KeyedTable(schema[t], tables[t])
  }

  ghost predicate LoggedIn(schema: Schema, tables: Tables, c: RowChange, next: Tables) {
    && c.table in schema && c.table in tables && c.table in next
    && Logged(schema[c.table], tables[c.table], c, next[c.table])
    && next == tables[c.table := next[c.table]]
  }

  /** The source applied the logged changes one after another. */
  ghost predicate LoggedAll(schema: Schema, tables: Tables, changes: seq<RowChange>, next: Tables) {
    if changes == [] then next == tables
    else exists mid :: LoggedIn(schema, tables, changes[0], mid) && LoggedAll(schema, mid, changes[1..], next)
  }

  ghost function ProjectAll(schema: Schema, tables: Tables): Tables {
    map t | t in tables && t in schema :: Project(schema[t], tables[t])
  }

  lemma {:induction false} ProjectOne(schema: Schema, tables: Tables, t: TableId, rows: set<Row>)
    requires t in schema && t in tables
    ensures ProjectAll(schema, tables[t := rows]) == ProjectAll(schema, tables)[t := Project(schema[t], rows)]
  {
  }

  lemma {:induction false} StepIsSimulated(schema: Schema, tables: Tables, c: RowChange, next: Tables, s: Statement)
    requires KeyedTables(schema, tables) && LoggedIn(schema, tables, c, next) && ValidChange(c)
    requires PlanChange(c) == Ok(s)
    ensures KeyedTables(schema, next)
    ensures ExecuteIn(schema, ProjectAll(schema, tables), s) == Ok(ProjectAll(schema, next))
  {
    assert s.table == c.table by { PlanShape(c, s); }
    var def, rows, t := schema[c.table], tables[c.table], c.table;
    ProjectOne(schema, tables, t, next[t]);
    assert GoodDef(def) && KeyedTable(def, rows);
    ChangeIsSimulated(def, rows, c, next[t], s);
    assert ProjectAll(schema, tables)[t] == Project(def, rows);
  }

  /** Running a planned transaction on equal sink tables succeeds and leaves the tables equal. */
  lemma {:induction false} TransactionIsSimulated(schema: Schema, tables: Tables, changes: seq<RowChange>, next: Tables)
    requires KeyedTables(schema, tables) && LoggedAll(schema, tables, changes, next)
    requires forall i :: 0 <= i < |changes| ==> ValidChange(changes[i])
    requires PlanChanges(changes).Ok?
    ensures KeyedTables(schema, next)
    ensures Run(schema, ProjectAll(schema, tables), PlanChanges(changes).value) == Ok(ProjectAll(schema, next))
    decreases |changes|
  {
    if changes != [] {
      var mid :| LoggedIn(schema, tables, changes[0], mid) && LoggedAll(schema, mid, changes[1..], next);
      TraverseSplits(PlanChange, changes);
      var s, rest := PlanChange(changes[0]).value, PlanChanges(changes[1..]).value;
      StepIsSimulated(schema, tables, changes[0], mid, s);
      TransactionIsSimulated(schema, mid, changes[1..], next);
      RunFirst(schema, ProjectAll(schema, tables), s, rest, ProjectAll(schema, mid));
    }
  }

  /** Statements run one after another. */
  lemma {:induction false} RunFirst(schema: Schema, tables: Tables, s: Statement, rest: seq<Statement>, mid: Tables)
    requires ExecuteIn(schema, tables, s) == Ok(mid)
    ensures Run(schema, tables, [s] + rest) == Run(schema, mid, rest)
  {
    var plan := [s] + rest;
    assert plan[0] == s && plan[1..] == rest;
    assert Run(schema, tables, plan) == Run(schema, mid, plan[1..]);
  }
}
