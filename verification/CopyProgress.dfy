/**
 When a snapshot copy succeeds: exactly on a stream of valid batches of the scope's tables, in scope order,
 with one last batch for each table, whose rows the sink can take. The batches that a snapshot reader
 delivers are such a stream.
 */
module CopyProgress {
  import opened Outcomes
  import opened Cursor
  import opened Images
  import opened Rows
  import opened Simulation
  import opened Planning
  import opened Checkpoints
  import opened Copying
  import opened Keysets

  type Items = seq<Result<Batch, ()>>

  // ---------------------------------------------------------------- the stream on its own

  /** The tables whose last batch is in the stream, in stream order. */
  function Finished(batches: Items): seq<TableId> {
    if batches == [] then []
    else (if batches[0].Ok? && batches[0].value.last then [batches[0].value.table] else []) + Finished(batches[1..])
  }

  /** A batch of the source: complete images of a named table, and not empty unless it is the table's last. */
  ghost predicate ItemOf(source: string, item: Result<Batch, ()>) {
    && item.Ok? && item.value.source == source
    && GoodIdentifier(item.value.table.schema) && GoodIdentifier(item.value.table.table)
    && (item.value.rows != [] || item.value.last)
    && forall i :: 0 <= i < |item.value.rows| ==> CompleteImage(item.value.rows[i])
  }

  /** The batch belongs to the first table of the scope that is not finished; `index` are finished before. */
  ghost predicate InPlace(scope: seq<TableId>, batches: Items, index: nat, i: nat)
    requires i < |batches|
  {
    var k := index + |Finished(batches[..i])|;
    batches[i].Ok? && k < |scope| && batches[i].value.table == scope[k]
  }

  ghost predicate AllItems(source: string, batches: Items) {
    forall i {:trigger ItemOf(source, batches[i])} :: 0 <= i < |batches| ==> ItemOf(source, batches[i])
  }

  ghost predicate AllInPlace(scope: seq<TableId>, batches: Items, index: nat) {
    forall i {:trigger InPlace(scope, batches, index, i)} :: 0 <= i < |batches| ==> InPlace(scope, batches, index, i)
  }

  lemma {:induction false} ItemsFirst(source: string, batches: Items)
    requires batches != []
    ensures AllItems(source, batches) <==> ItemOf(source, batches[0]) && AllItems(source, batches[1..])
  {
    if AllItems(source, batches) {
      forall i | 0 <= i < |batches| - 1
        ensures ItemOf(source, batches[1..][i])
      {
        assert ItemOf(source, batches[i + 1]);
      }
      assert ItemOf(source, batches[0]);
    }
    if ItemOf(source, batches[0]) && AllItems(source, batches[1..]) {
      forall i | 0 <= i < |batches|
        ensures ItemOf(source, batches[i])
      {
        assert i > 0 ==> ItemOf(source, batches[1..][i - 1]);
      }
    }
  }

  function Step(item: Result<Batch, ()>): nat {
    if item.Ok? && item.value.last then 1 else 0
  }

  lemma {:induction false} InPlaceLater(scope: seq<TableId>, batches: Items, index: nat, i: nat)
    requires i + 1 < |batches|
    ensures InPlace(scope, batches, index, i + 1) <==> InPlace(scope, batches[1..], index + Step(batches[0]), i)
  {
    assert batches[..i + 1][0] == batches[0] && batches[..i + 1][1..] == batches[1..][..i];
  }

  lemma {:induction false} PlacesFirst(scope: seq<TableId>, batches: Items, index: nat)
    requires batches != []
    ensures AllInPlace(scope, batches, index)
            <==> InPlace(scope, batches, index, 0) && AllInPlace(scope, batches[1..], index + Step(batches[0]))
  {
    var next := index + Step(batches[0]);
    if AllInPlace(scope, batches, index) {
      forall i | 0 <= i < |batches| - 1
        ensures InPlace(scope, batches[1..], next, i)
      {
        assert InPlace(scope, batches, index, i + 1);
        InPlaceLater(scope, batches, index, i);
      }
      assert InPlace(scope, batches, index, 0);
    }
    if InPlace(scope, batches, index, 0) && AllInPlace(scope, batches[1..], next) {
      forall i | 0 <= i < |batches|
        ensures InPlace(scope, batches, index, i)
      {
        if i > 0 {
          assert InPlace(scope, batches[1..], next, i - 1);
          InPlaceLater(scope, batches, index, i - 1);
        }
      }
    }
  }

  /** The stream has one last batch for each scope table from `index` on, in scope order, and nothing out of place. */
  ghost predicate WholeStream(source: string, scope: seq<TableId>, batches: Items, index: nat) {
    && index <= |scope| && AllItems(source, batches) && AllInPlace(scope, batches, index)
    && Finished(batches) == scope[index..]
  }

  lemma {:induction false} StreamFirst(source: string, scope: seq<TableId>, batches: Items, index: nat)
    requires batches != [] && index <= |scope|
    ensures WholeStream(source, scope, batches, index)
            <==> ItemOf(source, batches[0]) && index < |scope| && batches[0].value.table == scope[index]
                 && WholeStream(source, scope, batches[1..], index + Step(batches[0]))
  {
    ItemsFirst(source, batches);
    PlacesFirst(scope, batches, index);
    assert Finished(batches[..0]) == [];
    if InPlace(scope, batches, index, 0) {
      FinishedFirst(scope, batches, index);
    }
  }

  lemma {:induction false} FinishedFirst(scope: seq<TableId>, batches: Items, index: nat)
    requires batches != [] && index < |scope| && batches[0].Ok? && batches[0].value.table == scope[index]
    ensures Finished(batches) == scope[index..]
            <==> Finished(batches[1..]) == scope[index + Step(batches[0])..]
  {
    var rest := Finished(batches[1..]);
    if batches[0].value.last {
      assert scope[index..] == [scope[index]] + scope[index + 1..];
      assert Finished(batches) == [scope[index]] + rest;
      assert Finished(batches)[1..] == rest && scope[index..][1..] == scope[index + 1..];
    } else {
      assert Finished(batches) == rest;
    }
  }

  // ---------------------------------------------------------------- one batch

  lemma {:induction false} BatchIsPlanned(b: Batch)
    requires ValidBatch(b)
    ensures PlanChanges(InsertChanges(b.table, b.rows)).Ok?
    ensures IsControlSchema(b.table.schema) || !TouchesControl(PlanChanges(InsertChanges(b.table, b.rows)).value)
  {
    var changes := InsertChanges(b.table, b.rows);
    forall i | 0 <= i < |changes|
      ensures ValidChange(changes[i]) && Plannable(changes[i])
    {
      assert CompleteImage(b.rows[i]);
      FirstKey(b.rows[i], Insert, false);
    }
    PlansSucceed(changes);
    ControlTouched(changes);
    ControlSchemaNames(b.table.schema);
  }

  /** A batch is taken exactly when it is the expected one, its inserts run, and the count does not overflow. */
  lemma {:induction false} NextIsTaken(schema: Schema, source: string, scope: seq<TableId>, item: Result<Batch, ()>,
                                       at: Progress, plan: seq<Statement>)
    requires forall i :: 0 <= i < |scope| ==> !IsControlSchema(scope[i].schema)
    requires ItemOf(source, item) ==> PlanChanges(InsertChanges(item.value.table, item.value.rows)) == Ok(plan)
    ensures CopyNext(schema, source, scope, item, at).Ok?
            <==> ItemOf(source, item) && at.index < |scope| && item.value.table == scope[at.index]
                 && Run(schema, at.tables, plan).Ok? && at.rows + |item.value.rows| <= U64_MAX
    ensures CopyNext(schema, source, scope, item, at).Ok? ==>
              CopyNext(schema, source, scope, item, at).value
              == Progress(at.index + Step(item), at.rows + |item.value.rows|, Run(schema, at.tables, plan).value)
  {
    if ItemOf(source, item) {
      BatchIsPlanned(item.value);
    }
  }

  lemma {:induction false} RunSplits(schema: Schema, tables: Tables, p: seq<Statement>, q: seq<Statement>)
    ensures Run(schema, tables, p + q)
            == (if Run(schema, tables, p).Err? then Run(schema, tables, p)
                else Run(schema, Run(schema, tables, p).value, q))
    decreases |p|
  {
    if p == [] {
      assert p + q == q;
    } else {
      assert (p + q)[0] == p[0] && (p + q)[1..] == p[1..] + q;
      var next := ExecuteIn(schema, tables, p[0]);
      if next.Ok? {
        RunSplits(schema, next.value, p[1..], q);
      }
    }
  }

  // ---------------------------------------------------------------- the whole copy

  lemma {:induction false} ItemsArePlanned(source: string, batches: Items)
    requires AllItems(source, batches)
    ensures PlanChanges(Changes(batches)).Ok?
    decreases |batches|
  {
    if batches != [] {
      ItemsFirst(source, batches);
      ItemsArePlanned(source, batches[1..]);
      BatchIsPlanned(batches[0].value);
      TraverseAppends(PlanChange, InsertChanges(batches[0].value.table, batches[0].value.rows), Changes(batches[1..]));
    }
  }

  /** The inserts of a whole stream, planned together, run on the tables, and their number is not too large. */
  ghost predicate Taken(schema: Schema, batches: Items, rows: nat, tables: Tables) {
    && PlanChanges(Changes(batches)).Ok?
    && Run(schema, tables, PlanChanges(Changes(batches)).value).Ok?
    && rows + |Changes(batches)| <= U64_MAX
  }

  lemma {:induction false} TakenFirst(schema: Schema, source: string, batches: Items, rows: nat, tables: Tables,
                                      plan: seq<Statement>)
    requires batches != [] && ItemOf(source, batches[0]) && AllItems(source, batches)
    requires PlanChanges(InsertChanges(batches[0].value.table, batches[0].value.rows)) == Ok(plan)
    ensures Taken(schema, batches, rows, tables)
            <==> Run(schema, tables, plan).Ok? && rows + |batches[0].value.rows| <= U64_MAX
                 && Taken(schema, batches[1..], rows + |batches[0].value.rows|, Run(schema, tables, plan).value)
  {
    var first, rest := InsertChanges(batches[0].value.table, batches[0].value.rows), Changes(batches[1..]);
    ItemsFirst(source, batches);
    ItemsArePlanned(source, batches[1..]);
    TraverseAppends(PlanChange, first, rest);
    RunSplits(schema, tables, plan, PlanChanges(rest).value);
  }

  /** A copy from any point succeeds exactly on a whole stream whose inserts the tables take. */
  lemma {:induction false} CopySucceedsFrom(schema: Schema, source: string, scope: seq<TableId>, batches: Items,
                                            at: Progress)
    requires forall i :: 0 <= i < |scope| ==> !IsControlSchema(scope[i].schema)
    requires at.index <= |scope| && at.rows <= U64_MAX
    ensures CopyAll(schema, source, scope, batches, at).Ok?
            <==> WholeStream(source, scope, batches, at.index) && Taken(schema, batches, at.rows, at.tables)
    decreases |batches|
  {
    if batches != [] {
      StreamFirst(source, scope, batches, at.index);
      if ItemOf(source, batches[0]) {
        CopyFirst(schema, source, scope, batches, at);
      }
    }
  }

  lemma {:induction false} CopyFirst(schema: Schema, source: string, scope: seq<TableId>, batches: Items, at: Progress)
    requires forall i :: 0 <= i < |scope| ==> !IsControlSchema(scope[i].schema)
    requires batches != [] && at.index <= |scope| && at.rows <= U64_MAX && ItemOf(source, batches[0])
    ensures CopyAll(schema, source, scope, batches, at).Ok?
            <==> WholeStream(source, scope, batches, at.index) && Taken(schema, batches, at.rows, at.tables)
    decreases |batches|, 0
  {
    var b := batches[0].value;
    BatchIsPlanned(b);
    var plan := PlanChanges(InsertChanges(b.table, b.rows)).value;
    NextIsTaken(schema, source, scope, batches[0], at, plan);
    StreamFirst(source, scope, batches, at.index);
    if AllItems(source, batches) {
      TakenFirst(schema, source, batches, at.rows, at.tables, plan);
    }
    var next := CopyNext(schema, source, scope, batches[0], at);
    if next.Ok? {
      CopySucceedsFrom(schema, source, scope, batches[1..], next.value);
    }
  }

  // ---------------------------------------------------------------- what a reader delivers

  /** Stored rows decode to complete images, of tables whose names are identifiers. */
  ghost predicate CompleteTables(scope: seq<TableId>, tables: seq<seq<Stored>>) {
    && |scope| == |tables|
    && (forall t :: 0 <= t < |scope| ==> GoodIdentifier(scope[t].schema) && GoodIdentifier(scope[t].table))
    && forall t, i :: 0 <= t < |tables| && 0 <= i < |tables[t]| ==> CompleteImage(tables[t][i].image)
  }

  lemma {:induction false} BatchIsItem(source: string, scope: seq<TableId>, tables: seq<seq<Stored>>, t: nat, k: nat)
    requires CompleteTables(scope, tables) && t < |tables| && k <= |tables[t]|
    ensures
      var b := BatchAt(t, tables[t], k);
      ItemOf(source, Ok(Batch(source, scope[t], ImagesOf(b.rows), b.last)))
  {
    var b := BatchAt(t, tables[t], k);
    forall i | 0 <= i < |b.rows|
      ensures CompleteImage(ImagesOf(b.rows)[i])
    {
      assert b.rows[i] == tables[t][k + i];
    }
  }

  lemma {:induction false} DeliveredStep(source: string, scope: seq<TableId>, b: Scanned, rest: seq<Scanned>)
    requires b.table < |scope| && InScope(scope, rest)
    ensures InScope(scope, [b] + rest)
    ensures Delivered(source, scope, [b] + rest)
            == [Ok(Batch(source, scope[b.table], ImagesOf(b.rows), b.last))] + Delivered(source, scope, rest)
  {
    assert ([b] + rest)[1..] == rest;
  }

  /** A reader's batches, from any table and row on, are a whole stream of the tables still to come. */
  lemma {:induction false} DeliveredIsWhole(source: string, scope: seq<TableId>, tables: seq<seq<Stored>>, t: nat,
                                            k: nat)
    requires CompleteTables(scope, tables) && t <= |tables| && k <= (if t < |tables| then |tables[t]| else 0)
    ensures InScope(scope, AllBatches(tables, t, k))
    ensures WholeStream(source, scope, Delivered(source, scope, AllBatches(tables, t, k)), t)
    decreases |tables| - t, if t < |tables| then |tables[t]| - k else 0
  {
    if t < |tables| {
      var b, rest := BatchAt(t, tables[t], k), Remaining(tables, t, k);
      if b.last {
        DeliveredIsWhole(source, scope, tables, t + 1, 0);
      } else {
        DeliveredIsWhole(source, scope, tables, t, BatchEnd(|tables[t]|, k));
      }
      NextOfAll(tables, t, k);
      DeliveredStep(source, scope, b, rest);
      BatchIsItem(source, scope, tables, t, k);
      var items := Delivered(source, scope, [b] + rest);
      assert items[1..] == Delivered(source, scope, rest);
      StreamFirst(source, scope, items, t);
    }
  }
}
