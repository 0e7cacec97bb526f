/**
 Where resolving an unknown commit says too much: from every history a state is reached in which a
 transaction is called applied although no business row has been committed, and one such history.
 */
module SnapshotPhase {
  import opened Outcomes
  import opened Cursor
  import opened Images
  import opened Rows
  import opened Simulation
  import opened Checkpoints
  import opened Copying
  import opened SourceLogs
  import opened Replication
  import opened Safety
  import opened Guarantees

  /** A snapshot's boundary at a logged transaction, with its own id, as GTID mode records it. */
  function ViewAt(route: Route, src: Source, i: nat): View
    requires i < |src.log| && |src.states| == |src.log| + 1
  {
    View(Boundary(route.owner.source, Gtid, src.log[i].position, {src.log[i].id}), src.states[i + 1])
  }

  function NewWriter(route: Route): Writer {
    Writer(route.owner, None, None, None)
  }

  function FirstState(route: Route, src: Source): State {
    State(src, Sink(Durable(None, route.initial), None), [], Ledger(0, {}, 0, []), Ledger(0, {}, 0, []))
  }

  function ConnectedState(route: Route, src: Source): State {
    FirstState(route, src).(workers := [Worker(NewWriter(route), None, 0, None)])
  }

  lemma {:induction false} ViewIsGood(route: Route, src: Source, i: nat)
    requires GoodSource(route, src) && i < |src.log| && route.kind != PostgresqlLsn
    ensures GoodView(route, src, ViewAt(route, src, i))
  {
    assert GoodTxn(route, src.log[i]);
    IdBehindItself(route, src, i, At(route, src.log[i].position));
    CutAt(route, src.log, i);
  }

  lemma {:induction false} PreparesAt(route: Route, s: State, view: View) returns (t: State)
    requires |s.source.states| == |s.source.log| + 1 && GoodView(route, s.source, view) && s.workers != []
    requires s.sink == Sink(Durable(None, route.initial), None) && s.workers[0].writer == NewWriter(route)
    requires view.boundary.source == route.owner.source && view.boundary.mode != PostgresqlLsn
    requires ValidPosition(view.boundary.position)
    ensures Takes(route, s, Prepare(0, view, true), t) && t.source == s.source && t.sink.pending.None?
    ensures t.sink.durable == Durable(Some(MarkedRow(route.owner, None, view.boundary)), route.initial)
  {
    var o := PrepareSnapshot(s.workers[0].writer, s.sink, view.boundary, true);
    t := After(s, 0, s.workers[0].(writer := o.writer, view := Some(view)), o.sink, Ledger(0, {}, 0, []));
    assert Prepares(route, s, Prepare(0, view, true), t);
  }

  /** Such a state is reached from every history: connect, then prepare a snapshot at the transaction. */
  lemma {:induction false} SnapshotPhaseIsReached(route: Route, src: Source, i: nat)
    returns (run: seq<State>, actions: seq<Action>)
    requires GoodRoute(route) && GoodSource(route, src) && i < |src.log| && route.kind != PostgresqlLsn
    ensures IsRun(route, run, actions) && |run| == 3 && run[2].source == src
    ensures run[2].sink.durable.row.Some? && run[2].sink.durable.row.value.phase == Snapshot
    ensures run[2].sink.durable.tables == route.initial && run[2].sink.pending.None?
    ensures Resolve(route.server, NewWriter(route), run[2].sink, route.owner.source, src.log[i].id, src.log[i].cursor)
            == Ok(Applied)
  {
    ViewIsGood(route, src, i);
    assert GoodTxn(route, src.log[i]);
    var end := PreparesAt(route, ConnectedState(route, src), ViewAt(route, src, i));
    run := [FirstState(route, src), ConnectedState(route, src), end];
    actions := [Connect, Prepare(0, ViewAt(route, src, i), true)];
    assert TakesAt(route, run, actions, 0) && TakesAt(route, run, actions, 1);
    ResolutionIgnoresSnapshotPhase(route, run, actions, 2, NewWriter(route), i);
  }

  // ---------------------------------------------------------------- one such history

  const EXAMPLE_TABLE := TableId("shop", "orders")

  function ExampleRoute(): Route {
    Route(Server(map[EXAMPLE_TABLE := TableDef({"id"}, {}, {"id"})], (id: Id) => Some({id})),
          Owner("task", "source", "sink", "binding"), Binlog, [98], map[EXAMPLE_TABLE := {}])
  }

  /** One transaction at `b.1`, offset 4, that inserts one order. */
  function ExampleTxn(): Txn {
    var row := [Column(1, "id", "int", Some(0), false, None, Value("7"))];
    Txn([103], Encode([98, DOT, 49], 4), Position([98, DOT, 49], 4),
        [RowChange(Insert, EXAMPLE_TABLE, None, Some(row))])
  }

  function ExampleSource(): Source {
    Source([ExampleTxn()], [map[EXAMPLE_TABLE := {}], map[EXAMPLE_TABLE := {map["id" := Is("7")]}]],
           At(ExampleRoute(), ExampleTxn().position), {})
  }

  lemma {:induction false} ExamplePosition()
    ensures GoodTxn(ExampleRoute(), ExampleTxn())
  {
    var file, name: File := [98, DOT, 49], [98, DOT];
    CursorRoundTrip(file, 4);
    assert name[..1] == [98] && SplitLast(name, DOT) == Some((name[..1], []));
    assert file[..2] == name && SplitLast(file, DOT) == Some(([98], [] + [file[2]]));
    assert [] + [file[2]] == [49];
    var digits: seq<Byte> := [49];
    assert digits[..0] == [] && ParseDigits(digits, 10) == Some(1);
  }

  lemma {:induction false} ExampleInsert()
    ensures AppliesAt(ExampleRoute(), ExampleSource(), 0)
  {
    var schema, src := ExampleRoute().server.schema, ExampleSource();
    var c := ExampleTxn().changes[0];
    assert NameIn(c.after.value, "id") by { assert c.after.value[0].name == "id"; }
    assert Inserts(schema[EXAMPLE_TABLE], {}, c, {map["id" := Is("7")]}, map["id" := Is("7")]);
    assert LoggedIn(schema, src.states[0], c, src.states[1]);
    assert ExampleTxn().changes[1..] == [];
    assert LoggedAll(schema, src.states[1], [], src.states[1]);
  }

  lemma {:induction false} ExampleKeys()
    ensures KeyedTables(ExampleRoute().server.schema, ExampleSource().states[1])
  {
  }

  lemma {:induction false} ExampleLog()
    ensures GoodLog(ExampleRoute(), ExampleSource())
  {
    ExamplePosition();
  }

  lemma {:induction false} ExampleHistory()
    ensures GoodRoute(ExampleRoute()) && GoodSource(ExampleRoute(), ExampleSource())
  {
    ExampleLog();
    ExampleInsert();
    ExampleKeys();
  }

  /** A concrete history: the order is called applied while the sink has no row at all. */
  lemma {:induction false} ExampleIsMisled() returns (run: seq<State>, actions: seq<Action>)
    ensures GoodRoute(ExampleRoute()) && IsRun(ExampleRoute(), run, actions) && |run| == 3
    ensures run[2].source == ExampleSource() && |ExampleTxn().changes| == 1
    ensures run[2].sink.durable.tables == map[EXAMPLE_TABLE := {}]
    ensures Resolve(ExampleRoute().server, NewWriter(ExampleRoute()), run[2].sink, "source", ExampleTxn().id,
                    ExampleTxn().cursor) == Ok(Applied)
  {
    ExampleHistory();
    run, actions := SnapshotPhaseIsReached(ExampleRoute(), ExampleSource(), 0);
  }
}
