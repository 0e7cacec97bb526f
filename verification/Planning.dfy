/**
 When a change can be planned, and what an executed statement does to a table. Both are said of the images
 and the rows themselves, so that the sink neither refuses a change it must take nor takes one silently.
 */
module Planning {
  import opened Outcomes
  import opened Images
  import opened Rows
  import opened Simulation

  // ---------------------------------------------------------------- planning

  /** Every image names the first key column; key ordinals start at zero. */
  predicate Keyed(c: RowChange) {
    (c.before.Some? ==> KeyAt(c.before.value, 0)) && (c.after.Some? ==> KeyAt(c.after.value, 0))
  }

  /** No column that is written carries an envelope; a key in a validated image never does. */
  predicate Bindable(c: RowChange) {
    c.after.Some? ==>
      forall i :: 0 <= i < |c.after.value| && !c.after.value[i].generated ==> !c.after.value[i].datum.Envelope?
  }

  predicate Plannable(c: RowChange) {
    Keyed(c) && Bindable(c)
  }

  lemma {:induction false} FirstKey(row: Image, operation: Operation, isBefore: bool)
    requires ValidImage(row, operation, isBefore)
    ensures HasKey(row) <==> KeyAt(row, 0)
  {
    if HasKey(row) {
      var i :| 0 <= i < |row| && row[i].key.Some?;
      if row[i].key.value > 0 {
        assert KeyAt(row, 0);
      }
    }
  }

  lemma {:induction false} BoundWhenAllBind(row: Image)
    ensures BindColumns(row).Ok? <==> forall c :: c in row ==> Bind(c.datum).Ok?
    decreases |row|
  {
    if row != [] {
      BoundWhenAllBind(row[1..]);
      assert row == [row[0]] + row[1..];
    }
  }

  lemma {:induction false} WrittenBind(row: Image, operation: Operation, isBefore: bool)
    requires ValidImage(row, operation, isBefore)
    ensures BindColumns(WritableColumns(row)).Ok?
            <==> forall i :: 0 <= i < |row| && !row[i].generated ==> !row[i].datum.Envelope?
  {
    WritableKeepsColumns(row);
    BoundWhenAllBind(WritableColumns(row));
    forall i | 0 <= i < |row| && row[i].datum.Envelope? && !row[i].generated
      ensures row[i] in WritableColumns(row) && Bind(row[i].datum).Err?
    {
    }
  }

  lemma {:induction false} KeysBind(row: Image, operation: Operation, isBefore: bool)
    requires ValidImage(row, operation, isBefore)
    ensures BindColumns(KeyColumns(row)).Ok?
  {
    KeyKeepsColumns(row);
    BoundWhenAllBind(KeyColumns(row));
    forall c | c in KeyColumns(row)
      ensures Bind(c.datum).Ok?
    {
      var i :| 0 <= i < |row| && row[i] == c;
      assert ValidColumn(row[i], operation, isBefore);
    }
  }

  /** A valid change is planned exactly when its images name a key and nothing it writes is an envelope. */
  lemma {:induction false} PlanSucceeds(c: RowChange)
    requires ValidChange(c)
    ensures PlanChange(c).Ok? <==> Plannable(c)
  {
    if c.before.Some? {
      FirstKey(c.before.value, c.operation, true);
      KeysBind(c.before.value, c.operation, true);
    }
    if c.after.Some? {
      FirstKey(c.after.value, c.operation, false);
      WrittenBind(c.after.value, c.operation, false);
      if HasKey(c.after.value) {
        KeyIsWritable(c.after.value, c.operation, false);
      }
    }
  }

  ghost predicate AllPlannable(changes: seq<RowChange>) {
    forall i {:trigger Plannable(changes[i])} :: 0 <= i < |changes| ==> Plannable(changes[i])
  }

  lemma {:induction false} LastPlannable(changes: seq<RowChange>)
    requires changes != []
    ensures AllPlannable(changes) <==> AllPlannable(changes[..|changes| - 1]) && Plannable(changes[|changes| - 1])
  {
    var front := changes[..|changes| - 1];
    if AllPlannable(changes) {
      forall i | 0 <= i < |front|
        ensures Plannable(front[i])
      {
        assert Plannable(changes[i]);
      }
    }
    if AllPlannable(front) && Plannable(changes[|changes| - 1]) {
      forall i | 0 <= i < |changes|
        ensures Plannable(changes[i])
      {
        assert i < |front| ==> Plannable(front[i]);
      }
    }
  }

  /** And a transaction exactly when all its changes are. */
  lemma {:induction false} PlansSucceed(changes: seq<RowChange>)
    requires forall i {:trigger ValidChange(changes[i])} :: 0 <= i < |changes| ==> ValidChange(changes[i])
    ensures PlanChanges(changes).Ok? <==> AllPlannable(changes)
    decreases |changes|
  {
    if changes != [] {
      var front := changes[..|changes| - 1];
      forall i | 0 <= i < |front|
        ensures ValidChange(front[i])
      {
        assert ValidChange(changes[i]);
      }
      PlansSucceed(front);
      PlanSucceeds(changes[|changes| - 1]);
      LastPlannable(changes);
    }
  }

  /** The planned statements name the tables of the changes, in order. */
  lemma {:induction false} PlannedTables(changes: seq<RowChange>, i: nat)
    requires PlanChanges(changes).Ok? && i < |changes|
    ensures |PlanChanges(changes).value| == |changes| && PlanChanges(changes).value[i].table == changes[i].table
    decreases |changes|
  {
    var n := |changes| - 1;
    TraverseLength(PlanChange, changes);
    TraverseLength(PlanChange, changes[..n]);
    if i < n {
      PlannedTables(changes[..n], i);
    } else {
      PlanShape(changes[n], PlanChange(changes[n]).value);
    }
  }

  /** `cdc`, in any letter case. */
  predicate NamesControl(name: Name) {
    |name| == 3 && name[0] in {'c', 'C'} && name[1] in {'d', 'D'} && name[2] in {'c', 'C'}
  }

  lemma {:induction false} ControlSchemaNames(name: Name)
    ensures IsControlSchema(name) <==> NamesControl(name)
  {
  }

  /** A plan is kept off the control schema exactly when its changes are. */
  lemma {:induction false} ControlTouched(changes: seq<RowChange>)
    requires PlanChanges(changes).Ok?
    ensures TouchesControl(PlanChanges(changes).value)
            <==> exists i :: 0 <= i < |changes| && NamesControl(changes[i].table.schema)
  {
    var plan := PlanChanges(changes).value;
    TraverseLength(PlanChange, changes);
    forall i | 0 <= i < |changes|
      ensures plan[i].table == changes[i].table
      ensures IsControlSchema(plan[i].table.schema) <==> NamesControl(changes[i].table.schema)
    {
      PlannedTables(changes, i);
      ControlSchemaNames(changes[i].table.schema);
    }
  }

  // ---------------------------------------------------------------- execution

  /** Exactly one row is the one that the locator names. */
  ghost predicate Only(rows: set<Row>, locator: Cells, row: Row) {
    row in rows && Located(row, locator) && forall r :: r in rows && Located(r, locator) ==> r == row
  }

  lemma {:induction false} OneHit(rows: set<Row>, locator: Cells)
    ensures |Hits(rows, locator)| == 1 <==> exists row :: Only(rows, locator, row)
    ensures forall row :: Only(rows, locator, row) ==> Hits(rows, locator) == {row}
  {
    var hits := Hits(rows, locator);
    if |hits| == 1 {
      var row :| row in hits;
      assert |hits - {row}| == 0;
      forall r | r in rows && Located(r, locator)
        ensures r == row
      {
        assert r in hits && r !in hits - {row};
      }
      assert Only(rows, locator, row);
    }
    forall row | Only(rows, locator, row)
      ensures hits == {row}
    {
    }
  }

  /** What a statement that succeeds has done: one row inserted, exactly one row moved, or exactly one removed. */
  ghost predicate Did(def: TableDef, rows: set<Row>, s: Statement, next: set<Row>) {
    match s.operation
    case Insert =>
      var row := Assign(Defaults(def), s.assignments);
      (forall r :: r in rows ==> KeyOf(def, r) != KeyOf(def, row)) && next == rows + {row}
    case Update =>
      exists row :: Only(rows, s.locator, row)
        && (forall r :: r in rows && r != row ==> KeyOf(def, r) != KeyOf(def, Assign(row, s.assignments)))
        && next == rows - {row} + {Assign(row, s.assignments)}
    case Delete => exists row :: Only(rows, s.locator, row) && next == rows - {row}
  }

  /** A statement succeeds only by doing that, on columns the sink has. */
  lemma {:induction false} ExecutionTouchesOneRow(def: TableDef, rows: set<Row>, s: Statement, next: set<Row>)
    ensures Execute(def, rows, s) == Ok(next)
            <==> Did(def, rows, s, next)
                 && forall i :: 0 <= i < |s.assignments| ==>
                      s.assignments[i].name in def.columns && s.assignments[i].name !in def.generated
  {
    OneHit(rows, s.locator);
    match s.operation
    case Insert =>
    case Update =>
      if row :| Only(rows, s.locator, row) {
        MovedOne(def, rows, s, row, next);
      }
    case Delete =>
  }

  lemma {:induction false} MovedOne(def: TableDef, rows: set<Row>, s: Statement, row: Row, next: set<Row>)
    requires s.operation == Update && Only(rows, s.locator, row) && Hits(rows, s.locator) == {row}
    ensures Moved({row}, s.assignments) == {Assign(row, s.assignments)}
    ensures Execute(def, rows, s) == Ok(next)
            <==> Did(def, rows, s, next) && KnownColumns(def, s.assignments)
  {
    var patched := Assign(row, s.assignments);
    assert Moved({row}, s.assignments) == {patched};
    assert FreshKey(def, rows - {row}, patched)
           <==> forall r :: r in rows && r != row ==> KeyOf(def, r) != KeyOf(def, patched);
  }

  /** Whatever is executed, keys stay unique. */
  lemma {:induction false} KeysStayUnique(def: TableDef, rows: set<Row>, s: Statement)
    requires UniqueKeys(def, rows) && Execute(def, rows, s).Ok?
    ensures UniqueKeys(def, Execute(def, rows, s).value)
  {
    ExecutionTouchesOneRow(def, rows, s, Execute(def, rows, s).value);
  }
}
