/**
 Row changes on the sink: the statements planned for a validated change, their execution against the
 sink's tables as one transaction, and the simulation of the source tables by the sink tables on the
 columns that are not generated.
 */
module Rows {
  import opened Outcomes
  import opened Images

  datatype Cell = SqlNull | Is(value: Scalar)

  datatype RowError =
    | NoPrimaryKey | MissingImage | EmptyImage | NoWritableColumn | AbsentValue | NoCarrier
    | ControlSchema | UnknownTable | UnknownColumn | LocatorMismatch | DuplicateKey

  // ---------------------------------------------------------------- planning

  datatype Assignment = Assignment(name: Name, cell: Cell)

  type Cells = seq<Assignment>

  /** A rendered statement; `locator` is its WHERE clause and the probe that runs before it. */
  datatype Statement = Statement(operation: Operation, table: TableId, assignments: Cells, locator: Cells)

  predicate Writable(c: Column) {
    !c.generated && !c.datum.Unavailable? && !c.datum.Unchanged?
  }

  function WritableColumns(row: Image): Image {
    if row == [] then []
    else (if Writable(row[0]) then [row[0]] else []) + WritableColumns(row[1..])
  }

  function KeyColumns(row: Image): Image {
    if row == [] then []
    else (if row[0].key.Some? then [row[0]] else []) + KeyColumns(row[1..])
  }

  function Bind(datum: Datum): Result<Cell, RowError> {
    match datum
    case Unavailable | Unchanged => Err(AbsentValue)
    case Null => Ok(SqlNull)
    case Value(v) => Ok(Is(v))
    case Envelope(_) => Err(NoCarrier)
  }

  function BindColumns(row: Image): Result<Cells, RowError> {
    if row == [] then Ok([])
    else
      var first := Bind(row[0].datum);
      if first.Err? then Err(first.error)
      else
        var rest := BindColumns(row[1..]);
        if rest.Err? then rest else Ok([Assignment(row[0].name, first.value)] + rest.value)
  }

  predicate HasKey(row: Image) {
    exists i :: 0 <= i < |row| && row[i].key.Some?
  }

  /** The plan of one change. The order of the key predicates, joined by AND, is not modelled. */
  function PlanChange(c: RowChange): Result<Statement, RowError> {
    if (c.before.Some? && !HasKey(c.before.value)) || (c.after.Some? && !HasKey(c.after.value)) then Err(NoPrimaryKey)
    else
      match c.operation
      case Insert =>
        if c.after.None? then Err(MissingImage)
        else if c.after.value == [] then Err(EmptyImage)
        else if WritableColumns(c.after.value) == [] then Err(NoWritableColumn)
        else
          var cells := BindColumns(WritableColumns(c.after.value));
          if cells.Err? then Err(cells.error) else Ok(Statement(Insert, c.table, cells.value, []))
      case Update =>
        if c.before.None? || c.after.None? then Err(MissingImage)
        else if c.before.value == [] || c.after.value == [] then Err(EmptyImage)
        else if WritableColumns(c.after.value) == [] then Err(NoWritableColumn)
        else
          var cells, locator := BindColumns(WritableColumns(c.after.value)), BindColumns(KeyColumns(c.before.value));
          if cells.Err? then Err(cells.error)
          else if locator.Err? then Err(locator.error)
          else Ok(Statement(Update, c.table, cells.value, locator.value))
      case Delete =>
        if c.before.None? then Err(MissingImage)
        else if c.before.value == [] then Err(EmptyImage)
        else
          var locator := BindColumns(KeyColumns(c.before.value));
          if locator.Err? then Err(locator.error) else Ok(Statement(Delete, c.table, [], locator.value))
  }

  function PlanChanges(changes: seq<RowChange>): Result<seq<Statement>, RowError> {
    Traverse(PlanChange, changes)
  }

  /** The source's loop pushing one planned statement for each change. */
  method Plan(changes: seq<RowChange>) returns (r: Result<seq<Statement>, RowError>)
    ensures r == PlanChanges(changes)
  {
    var statements := [];
    for n := 0 to |changes|
      invariant PlanChanges(changes[..n]) == Ok(statements)
    {
      var statement := PlanChange(changes[n]);
      assert changes[..n + 1][..n] == changes[..n];
      if statement.Err? {
        TraverseFailsEarly(PlanChange, changes, n + 1);
        return Err(statement.error);
      }
      statements := statements + [statement.value];
    }
    assert changes[..|changes|] == changes;
    return Ok(statements);
  }

  // ---------------------------------------------------------------- the sink's tables

  type Row = map<Name, Cell>

  /** A table definition; the sink's table has the columns that are not generated. */
  datatype TableDef = TableDef(columns: set<Name>, generated: set<Name>, key: set<Name>)

  predicate GoodDef(def: TableDef) {
    def.key != {} && def.key <= def.columns && def.key !! def.generated && def.generated <= def.columns
  }

  type Schema = map<TableId, TableDef>

  type Tables = map<TableId, set<Row>>

  function KeyOf(def: TableDef, row: Row): Row {
    map n | n in row && n in def.key :: row[n]
  }

  function Assign(row: Row, cells: Cells): Row
    decreases |cells|
  {
    if cells == [] then row else Assign(row[cells[0].name := cells[0].cell], cells[1..])
  }

  predicate Located(row: Row, locator: Cells) {
    forall i :: 0 <= i < |locator| ==> locator[i].name in row && row[locator[i].name] == locator[i].cell
  }

  function Defaults(def: TableDef): Row {
    map n | n in def.columns - def.generated :: SqlNull
  }

  predicate KnownColumns(def: TableDef, cells: Cells) {
    forall i :: 0 <= i < |cells| ==> cells[i].name in def.columns - def.generated
  }

  function Hits(rows: set<Row>, locator: Cells): set<Row> {
    set r | r in rows && Located(r, locator)
  }

  function Moved(hits: set<Row>, cells: Cells): set<Row> {
    set r | r in hits :: Assign(r, cells)
  }

  predicate FreshKey(def: TableDef, rows: set<Row>, row: Row) {
    forall r :: r in rows ==> KeyOf(def, r) != KeyOf(def, row)
  }

  /** The database executes one statement; a locator must match exactly one row, and keys stay unique. */
  function Execute(def: TableDef, rows: set<Row>, s: Statement): Result<set<Row>, RowError> {
    if !KnownColumns(def, s.assignments) then Err(UnknownColumn)
    else
      match s.operation
      case Insert =>
        var row := Assign(Defaults(def), s.assignments);
        if FreshKey(def, rows, row) then Ok(rows + {row}) else Err(DuplicateKey)
      case Update =>
        var hits := Hits(rows, s.locator);
        var moved := Moved(hits, s.assignments);
        if |hits| != 1 then Err(LocatorMismatch)
        else if exists m :: m in moved && !FreshKey(def, rows - hits, m) then Err(DuplicateKey)
        else Ok(rows - hits + moved)
      case Delete =>
        var hits := Hits(rows, s.locator);
        if |hits| != 1 then Err(LocatorMismatch) else Ok(rows - hits)
  }

  function ExecuteIn(schema: Schema, tables: Tables, s: Statement): Result<Tables, RowError> {
    if s.table !in schema || s.table !in tables then Err(UnknownTable)
    else
      var rows := Execute(schema[s.table], tables[s.table], s);
      if rows.Err? then Err(rows.error) else Ok(tables[s.table := rows.value])
  }

  function Run(schema: Schema, tables: Tables, plan: seq<Statement>): Result<Tables, RowError> {
    if plan == [] then Ok(tables)
    else
      var next := ExecuteIn(schema, tables, plan[0]);
      if next.Err? then next else Run(schema, next.value, plan[1..])
  }

  function Upper(c: char): char {
    if 'a' <= c <= 'z' then (c as int - 32) as char else c
  }

  predicate IsControlSchema(name: Name) {
    |name| == 3 && Upper(name[0]) == 'C' && Upper(name[1]) == 'D' && Upper(name[2]) == 'C'
  }

  predicate TouchesControl(plan: seq<Statement>) {
    exists i :: 0 <= i < |plan| && IsControlSchema(plan[i].table.schema)
  }

  /** What a plan does to the tables inside the sink transaction. */
  function RunPlan(schema: Schema, tables: Tables, plan: seq<Statement>): Result<Tables, RowError> {
    if TouchesControl(plan) then Err(ControlSchema) else Run(schema, tables, plan)
  }

  /** The open sink transaction: the tables with what it has written so far. */
  class SinkTransaction {
    const schema: Schema
    var tables: Tables

    constructor (schema: Schema, tables: Tables)
      ensures this.schema == schema && this.tables == tables
    {
      this.schema, this.tables := schema, tables;
    }

    /** The source's two loops: no statement runs when any table is in the control schema. */
    method ExecuteStatements(plan: seq<Statement>) returns (r: Result<(), RowError>)
      modifies this
      ensures
        var result := RunPlan(schema, old(tables), plan);
        if result.Ok? then r == Ok(()) && tables == result.value else r == Err(result.error)
    {
      for n := 0 to |plan|
        invariant tables == old(tables)
        invariant forall i :: 0 <= i < n ==> !IsControlSchema(plan[i].table.schema)
      {
        if IsControlSchema(plan[n].table.schema) {
          return Err(ControlSchema);
        }
      }
      for n := 0 to |plan|
        invariant Run(schema, old(tables), plan) == Run(schema, tables, plan[n..])
      {
        var next := ExecuteIn(schema, tables, plan[n]);
        if next.Err? {
          return Err(next.error);
        }
        tables := next.value;
        assert plan[n..][1..] == plan[n + 1..];
      }
      return Ok(());
    }
  }
}
