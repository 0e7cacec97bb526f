/**
 What each operation of the checkpoint writer gives its caller: when it succeeds, what it then leaves, and
 what a new writer reads afterwards. The results are for every state of every run where the source's history
 matters, and for any writer and sink where it does not.
 */
module Operations {
  import opened Outcomes
  import opened Cursor
  import opened Images
  import opened Rows
  import opened Simulation
  import opened Planning
  import opened Checkpoints
  import opened Copying
  import opened Keysets
  import opened CopyProgress
  import opened SourceLogs
  import opened Replication
  import opened Safety
  import opened Guarantees

  // ---------------------------------------------------------------- applying again

  /** The writer accepts the id: short enough, ASCII, and in GTID mode a single GTID. */
  predicate UsableId(row: Checkpoint, id: Id) {
    0 < |id| <= 512 && (forall i :: 0 <= i < |id| ==> id[i] < 128) && (row.mode == Gtid ==> SingleGtid(id))
  }

  /** The attempt names the transaction, whatever it carries as its plan. */
  predicate Names(route: Route, t: Txn, a: Attempt) {
    a.source == route.owner.source && a.id == t.id && a.cursor == t.cursor
  }

  lemma {:induction false} CoveredAnswer(route: Route, src: Source, s: Sink, w: Writer, i: nat, a: Attempt,
                                         acknowledged: bool)
    requires GoodLog(route, src) && i < |src.log| && s.pending.None? && s.durable.row.Some?
    requires GoodRow(route, src, s.durable.row.value) && s.durable.row.value.phase == Incremental
    requires w.owner == route.owner && w.checkpoint == s.durable.row && Names(route, src.log[i], a)
    requires UsableId(s.durable.row.value, src.log[i].id)
    requires At(route, src.log[i].position) <= At(route, s.durable.row.value.position)
    ensures
      var row := s.durable.row.value;
      Apply(route.server, w, s, a, acknowledged)
      == Outcome(w, s, if row.mode == Gtid && src.log[i].id !in Elements(row.gtids) then Err(HistoriesDisagree)
                       else Ok(ApplyResult(row, 0, true)))
  {
    var row, txn := s.durable.row.value, src.log[i];
    assert GoodTxn(route, txn);
    CompareMeaning(route, row.mode, txn.position, row.position);
    assert {txn.id} <= Elements(row.gtids) <==> txn.id in Elements(row.gtids);
    assert CheckBinding(row, w.owner) == Ok(());
  }

  /**
   Applying a transaction at or before the durable position again: it is answered as already applied and
   nothing changes, in GTID mode if its id is recorded; otherwise the two histories disagree.
   */
  lemma {:induction false} ApplyingAgain(route: Route, run: seq<State>, actions: seq<Action>, n: nat, w: Writer, i: nat,
                                         a: Attempt, acknowledged: bool)
    requires GoodRoute(route) && IsRun(route, run, actions) && n < |run| && i < |run[n].source.log|
    requires IsIncremental(run[n]) && run[n].sink.pending.None?
    requires w.owner == route.owner && w.checkpoint == run[n].sink.durable.row && Names(route, run[n].source.log[i], a)
    requires UsableId(run[n].sink.durable.row.value, run[n].source.log[i].id)
    requires At(route, run[n].source.log[i].position) <= At(route, run[n].sink.durable.row.value.position)
    ensures
      var s, row, txn := run[n], run[n].sink.durable.row.value, run[n].source.log[i];
      var o := Apply(route.server, w, s.sink, a, acknowledged);
      && o.writer == w && o.sink == s.sink
      && o.result == if row.mode != Gtid || txn.id in Elements(row.gtids) then Ok(ApplyResult(row, 0, true))
                     else Err(HistoriesDisagree)
  {
    RunKeeps(route, run, actions, n);
    CoveredAnswer(route, run[n].source, run[n].sink, w, i, a, acknowledged);
  }

  /** Every transaction committed since the boundary is answered as already applied, in every mode. */
  lemma {:induction false} CommittedIsAlreadyApplied(
      route: Route, run: seq<State>, actions: seq<Action>, n: nat, w: Writer, k: nat, a: Attempt, acknowledged: bool)
    requires GoodRoute(route) && IsRun(route, run, actions) && n < |run|
    requires IsIncremental(run[n]) && run[n].sink.pending.None?
    requires k < |run[n].ledger.commits| && InLog(run[n].source, run[n].ledger)
    requires w.owner == route.owner && w.checkpoint == run[n].sink.durable.row
    requires Names(route, run[n].source.log[run[n].ledger.commits[k]], a)
    requires UsableId(run[n].sink.durable.row.value, run[n].source.log[run[n].ledger.commits[k]].id)
    ensures
      Apply(route.server, w, run[n].sink, a, acknowledged)
      == Outcome(w, run[n].sink, Ok(ApplyResult(run[n].sink.durable.row.value, 0, true)))
  {
    RunKeeps(route, run, actions, n);
    var src, row, ledger := run[n].source, run[n].sink.durable.row.value, run[n].ledger;
    CutMeaning(route, src.log, At(route, row.position));
    assert ledger.commits[k] < Last(ledger.base, ledger.commits);
    ApplyingAgain(route, run, actions, n, w, ledger.commits[k], a, acknowledged);
  }

  /** The row belongs to the same source, sink and binding; the task is only the row's key. */
  predicate SameBinding(a: Owner, b: Owner) {
    a.source == b.source && a.sink == b.sink && a.binding == b.binding
  }

  /**
   Whatever is called, and whatever the server does with the commit, only a writer in step with the row writes,
   and only with no commit pending; transactions only of its own source, under its own binding, with a usable id.
   */
  lemma {:induction false} OnlyInStepWrites(
      server: Server, w: Writer, s: Sink, mode: Mode, p: Position, gtids: Option<Gtids>, b: Boundary,
      scope: seq<TableId>, batches: Items, a: Attempt, acknowledged: bool)
    ensures
      (|| Initialize(w, s, mode, p, gtids, acknowledged).sink != s
       || PrepareSnapshot(w, s, b, acknowledged).sink != s
       || CopySnapshot(server, w, s, scope, batches, acknowledged).sink != s
       || Apply(server, w, s, a, acknowledged).sink != s)
      ==> s.pending.None? && s.durable.row == w.checkpoint
    ensures PrepareSnapshot(w, s, b, acknowledged).sink != s ==> b.source == w.owner.source
    ensures Apply(server, w, s, a, acknowledged).sink != s ==>
              && s.durable.row.Some? && s.durable.row.value.phase == Incremental
              && SameBinding(s.durable.row.value.owner, w.owner) && a.source == w.owner.source
              && 0 < |a.id| <= 512 && forall i :: 0 <= i < |a.id| ==> a.id[i] < 128
  {
    CopyMeansInStep(server, w, s, scope, batches, acknowledged);
  }

  lemma {:induction false} CopyMeansInStep(server: Server, w: Writer, s: Sink, scope: seq<TableId>, batches: Items,
                                           acknowledged: bool)
    ensures CopySnapshot(server, w, s, scope, batches, acknowledged).sink != s ==>
              s.pending.None? && s.durable.row == w.checkpoint
  {
    CopyEffectOnSink(server, w, s, scope, batches, acknowledged);
  }

  /** And only its own route is answered: other bindings and other sources get no row, no place and no resolution. */
  lemma {:induction false} OnlyOwnRouteIsAnswered(server: Server, w: Writer, s: Sink, empty: bool, source: string,
                                                  id: Id, cursor: SourceCursor)
    ensures Open(w.owner, s).Ok? && s.durable.row.Some? ==>
              var row := s.durable.row.value;
              && SameBinding(row.owner, w.owner) && ValidCheckpointPosition(row.mode, row.position)
              && (row.mode == Gtid <==> row.gtids.Some?)
    ensures Resolve(server, w, s, source, id, cursor).Ok? ==>
              && s.durable.row.Some? && SameBinding(s.durable.row.value.owner, w.owner)
              && source == w.owner.source && id != [] && s.pending.None?
    ensures Observe(server, w, empty, source, id, cursor).Ok? ==> empty && source == w.owner.source
  {
  }

  // ---------------------------------------------------------------- observing

  /** The observation is past the last one, and it is just that transaction that is recorded. */
  ghost predicate RecordsNext(route: Route, w: Writer, t: Txn, r: Writer) {
    && r.checkpoint == w.checkpoint && r.owner == w.owner && r.observedPosition == Some(t.position)
    && w.checkpoint.Some?
    && Elements(r.observedGtids)
       == Elements(w.observedGtids) + (if w.checkpoint.value.mode == Gtid then {t.id} else {})
  }

  predicate PastObserved(route: Route, w: Writer, t: Txn) {
    w.observedPosition.Some? ==> At(route, w.observedPosition.value) < At(route, t.position)
  }

  lemma {:induction false} ObservationAnswer(route: Route, src: Source, d: Durable, w: Writer, i: nat)
    requires GoodLog(route, src) && GoodWriter(route, src, d, w) && w.checkpoint.Some? && i < |src.log|
    ensures
      var txn := src.log[i];
      var r := Observe(route.server, w, txn.changes == [], route.owner.source, txn.id, txn.cursor);
      && (r.Ok? <==> (txn.changes == [] && PastObserved(route, w, txn)))
      && (r.Ok? ==> RecordsNext(route, w, txn, r.value))
  {
    var txn := src.log[i];
    assert GoodTxn(route, txn);
    if w.observedPosition.Some? {
      CompareMeaning(route, w.checkpoint.value.mode, txn.position, w.observedPosition.value);
    }
  }

  /** A worker can observe exactly the filtered transactions past what it has observed, and records just those. */
  lemma {:induction false} FilteredIsObserved(route: Route, run: seq<State>, actions: seq<Action>, n: nat, k: nat)
    requires GoodRoute(route) && IsRun(route, run, actions) && n < |run| && Delivers(run[n], k)
    ensures
      var w, txn := run[n].workers[k].writer, run[n].source.log[run[n].workers[k].next];
      var r := Observe(route.server, w, txn.changes == [], route.owner.source, txn.id, txn.cursor);
      && (r.Ok? <==> (txn.changes == [] && PastObserved(route, w, txn)))
      && (r.Ok? ==> RecordsNext(route, w, txn, r.value))
  {
    RunKeeps(route, run, actions, n);
    var s := run[n];
    assert GoodWorker(route, s.source, s.sink.durable, s.workers[k]);
    ObservationAnswer(route, s.source, s.sink.durable, s.workers[k].writer, s.workers[k].next);
  }

  // ---------------------------------------------------------------- advancing past filtered transactions

  /** The outcome moves the position and records the id, and leaves the tables. */
  ghost predicate IsAdvancedTo(s: State, t: Txn, o: Outcome<ApplyResult>) {
    && o.result.Ok? && !o.result.value.alreadyApplied && o.result.value.statements == 0
    && o.sink == Sink(Durable(Some(o.result.value.checkpoint), s.sink.durable.tables), None)
    && o.writer.checkpoint == o.sink.durable.row
    && o.result.value.checkpoint.position == t.position && o.result.value.checkpoint.last == Some(t.id)
  }

  predicate NotBeforeObserved(route: Route, w: Writer, t: Txn) {
    w.observedPosition.Some? ==> At(route, w.observedPosition.value) <= At(route, t.position)
  }

  lemma {:induction false} AdvanceAnswer(route: Route, src: Source, s: Sink, w: Writer, i: nat)
    requires GoodLog(route, src) && GoodWriter(route, src, s.durable, w) && i < |src.log| && s.pending.None?
    requires s.durable.row.Some? && s.durable.row == w.checkpoint && GoodRow(route, src, s.durable.row.value)
    requires s.durable.row.value.phase == Incremental && w.owner == route.owner
    requires At(route, s.durable.row.value.position) < At(route, src.log[i].position)
    ensures
      var txn := src.log[i];
      Apply(route.server, w, s, Attempt(route.owner.source, txn.id, txn.cursor, None), true).result.Ok?
      <==> UsableId(s.durable.row.value, txn.id) && s.durable.row.value.revision < U64_MAX
           && NotBeforeObserved(route, w, txn)
  {
    var txn, row := src.log[i], s.durable.row.value;
    assert GoodTxn(route, txn);
    NotCovered(route, src, row, i);
    if w.observedPosition.Some? {
      CompareMeaning(route, row.mode, txn.position, w.observedPosition.value);
    }
    assert CheckBinding(row, w.owner) == Ok(());
  }

  /** A worker in step with the row advances past a filtered transaction, unless it has observed beyond it. */
  lemma {:induction false} FilteredIsAdvanced(route: Route, run: seq<State>, actions: seq<Action>, n: nat, k: nat,
                                              i: nat)
    requires GoodRoute(route) && IsRun(route, run, actions) && n < |run| && k < |run[n].workers|
    requires IsIncremental(run[n]) && run[n].sink.pending.None? && i < |run[n].source.log|
    requires run[n].workers[k].writer.checkpoint == run[n].sink.durable.row
    requires At(route, run[n].sink.durable.row.value.position) < At(route, run[n].source.log[i].position)
    ensures
      var s, w, txn := run[n], run[n].workers[k].writer, run[n].source.log[i];
      var row := s.sink.durable.row.value;
      var o := Apply(route.server, w, s.sink, Attempt(route.owner.source, txn.id, txn.cursor, None), true);
      && (o.result.Ok?
          <==> UsableId(row, txn.id) && row.revision < U64_MAX && NotBeforeObserved(route, w, txn))
      && (o.result.Ok? ==> IsAdvancedTo(s, txn, o))
  {
    RunKeeps(route, run, actions, n);
    var s, w := run[n], run[n].workers[k];
    assert GoodWorker(route, s.source, s.sink.durable, w) && GoodTxn(route, s.source.log[i]);
    AdvanceAnswer(route, s.source, s.sink, w.writer, i);
    NotCovered(route, s.source, s.sink.durable.row.value, i);
  }

  // ---------------------------------------------------------------- connecting

  /** In every reachable state a writer of the route that connects knows exactly the durable row, and no other does. */
  lemma {:induction false} ReconnectReadsRow(route: Route, run: seq<State>, actions: seq<Action>, n: nat, owner: Owner)
    requires GoodRoute(route) && IsRun(route, run, actions) && n < |run|
    ensures Open(route.owner, run[n].sink) == Ok(Writer(route.owner, run[n].sink.durable.row, None, None))
    ensures run[n].sink.durable.row.Some? ==> (Open(owner, run[n].sink).Ok? <==> SameBinding(owner, route.owner))
  {
    RunKeeps(route, run, actions, n);
  }

  // ---------------------------------------------------------------- boundaries

  /**
   A route without a row starts exactly at a valid boundary that carries GTIDs in GTID mode only; the row
   says that boundary and no progress, the tables stay, and a new writer reads what this one knows. A writer
   that has a checkpoint keeps it.
   */
  lemma {:induction false} InitializeStartsRoute(w: Writer, s: Sink, mode: Mode, p: Position, gtids: Option<Gtids>)
    ensures w.checkpoint.Some? ==> Initialize(w, s, mode, p, gtids, true) == Outcome(w, s, Ok(w.checkpoint.value))
    ensures w.checkpoint.None? ==>
      var o := Initialize(w, s, mode, p, gtids, true);
      && (o.result.Ok? <==>
            && ValidCheckpointPosition(mode, p) && (mode == Gtid <==> gtids.Some?)
            && s.pending.None? && s.durable.row.None?)
      && (o.result.Ok? ==>
            var row := o.result.value;
            && o.sink == Sink(Durable(Some(row), s.durable.tables), None)
            && row.owner == w.owner && row.mode == mode && row.position == p && row.gtids == gtids
            && row.phase == Incremental && row.revision == 0 && row.last.None?
            && row.appliedRows == 0 && row.appliedTransactions == 0
            && Open(w.owner, o.sink) == Ok(Writer(w.owner, o.writer.checkpoint, None, None)))
  {
  }

  /**
   A snapshot is marked exactly for a writer in step with the row that has not left the snapshot phase; the
   row then says the boundary, the tables stay, and a new writer reads what this one knows.
   */
  lemma {:induction false} PrepareMarksSnapshot(w: Writer, s: Sink, b: Boundary)
    requires s.durable.row.Some? ==> s.durable.row.value.owner == w.owner
    ensures
      var o, before := PrepareSnapshot(w, s, b, true), s.durable.row;
      && (o.result.Ok? <==>
            && b.source == w.owner.source && ValidPosition(b.position) && b.mode != PostgresqlLsn
            && s.pending.None? && before == w.checkpoint
            && (before.Some? ==> before.value.phase == Snapshot && before.value.revision < U64_MAX))
      && (o.result.Ok? ==>
            var row := o.result.value;
            && o.sink == Sink(Durable(Some(row), s.durable.tables), None)
            && row.phase == Snapshot && row.position == b.position && row.mode == b.mode
            && row.gtids == (if b.mode == Gtid then Some(b.executed) else None) && row.snapshotGtids == Some(b.executed)
            && row.revision == (if before.Some? then before.value.revision + 1 else 0)
            && Open(w.owner, o.sink) == Ok(Writer(w.owner, o.writer.checkpoint, None, None)))
  {
  }

  // ---------------------------------------------------------------- copying

  /** Everything a caller can check before copying a view. */
  ghost predicate ReadyToCopy(route: Route, s: State, k: nat, scope: seq<TableId>, tables: seq<seq<Stored>>)
    requires k < |s.workers|
  {
    var w := s.workers[k];
    && w.view.Some? && s.sink.pending.None? && w.writer.checkpoint == s.sink.durable.row
    && w.writer.checkpoint.Some? && w.writer.checkpoint.value.revision < U64_MAX
    && scope != [] && Covers(route.server.schema, scope) && TargetsEmpty(s.sink.durable.tables, scope)
    && CompleteTables(scope, tables) && Scans(route.server.schema, w.view.value.tables, scope, ScansFrom(tables, 0))
    && (forall i :: 0 <= i < |scope| ==> scope[i] in w.view.value.tables)
    && TotalRows(w.view.value.tables, scope) <= U64_MAX
  }

  /** The outcome is the view: an incremental row that counts its rows, and its tables at its boundary. */
  ghost predicate IsCopyOf(route: Route, view: View, scope: seq<TableId>, o: Outcome<Checkpoint>)
    requires forall i :: 0 <= i < |scope| ==> scope[i] in view.tables
  {
    && o.result.Ok? && o.sink.durable.row == Some(o.result.value) && o.writer.checkpoint == o.sink.durable.row
    && o.result.value.phase == Incremental && o.result.value.position == view.boundary.position
    && o.result.value.snapshotRows == TotalRows(view.tables, scope)
    && o.sink.durable.tables == ProjectAll(route.server.schema, view.tables)
  }

  /**
   In every reachable state a worker that is ready copies its view: with the batches its reader delivers the
   copy succeeds, and leaves exactly the view, its row count, and an incremental row at its boundary.
   */
  lemma {:induction false} ViewIsCopied(route: Route, run: seq<State>, actions: seq<Action>, n: nat, k: nat,
                                        scope: seq<TableId>, tables: seq<seq<Stored>>)
    requires GoodRoute(route) && IsRun(route, run, actions) && n < |run| && k < |run[n].workers|
    requires ReadyToCopy(route, run[n], k, scope, tables)
    ensures InScope(scope, AllBatches(tables, 0, 0))
    ensures
      var s, w := run[n], run[n].workers[k];
      var batches := Delivered(route.owner.source, scope, AllBatches(tables, 0, 0));
      IsCopyOf(route, w.view.value, scope, CopySnapshot(route.server, w.writer, s.sink, scope, batches, true))
  {
    RunKeeps(route, run, actions, n);
    var s, w := run[n], run[n].workers[k];
    assert GoodWorker(route, s.source, s.sink.durable, w);
    DeliveredIsWhole(route.owner.source, scope, tables, 0, 0);
    var batches := Delivered(route.owner.source, scope, AllBatches(tables, 0, 0));
    ReaderCarriesView(route.server.schema, w.view.value.tables, route.owner.source, scope, tables);
    ViewIsTaken(route, s, w.view.value, scope, batches);
    CopyOfStream(route, s, w, scope, batches);
  }

  /** The inserts of a stream that carries the view run on empty targets. */
  lemma {:induction false} ViewIsTaken(route: Route, s: State, view: View, scope: seq<TableId>, batches: Items)
    requires Inv(route, s) && GoodView(route, s.source, view) && Covers(route.server.schema, scope)
    requires CarriesView(route.server.schema, view.tables, scope, batches)
    requires TargetsEmpty(s.sink.durable.tables, scope) && WholeStream(route.owner.source, scope, batches, 0)
    requires forall i :: 0 <= i < |scope| ==> scope[i] in view.tables
    requires TotalRows(view.tables, scope) <= U64_MAX
    ensures Taken(route.server.schema, batches, 0, s.sink.durable.tables)
  {
    var schema, tables := route.server.schema, s.sink.durable.tables;
    KeyedAt(route, s.source, Cut(route, s.source.log, At(route, view.boundary.position)));
    ViewIsBuilt(schema, view.tables, scope, batches);
    EmptyIsKeyed(schema, view.tables);
    EmptyTargets(schema, scope, tables);
    ItemsArePlanned(route.owner.source, batches);
    ItemsAreValid(route.owner.source, batches);
    TransactionIsSimulated(schema, EmptyTables(schema), Changes(batches), view.tables);
    var scans :| Scans(schema, view.tables, scope, scans) && Changes(batches) == AllInserts(scope, scans);
    ScansSize(schema, view.tables, scope, scans);
  }

  lemma {:induction false} ItemsAreValid(source: string, batches: Items)
    requires AllItems(source, batches)
    ensures forall i :: 0 <= i < |Changes(batches)| ==> ValidChange(Changes(batches)[i])
    decreases |batches|
  {
    if batches != [] {
      ItemsFirst(source, batches);
      ItemsAreValid(source, batches[1..]);
      ValidBatchInserts(batches[0].value);
    }
  }

  lemma {:induction false} CopyOfStream(route: Route, s: State, w: Worker, scope: seq<TableId>, batches: Items)
    requires Inv(route, s) && GoodWorker(route, s.source, s.sink.durable, w) && w.view.Some?
    requires s.sink.pending.None? && w.writer.checkpoint == s.sink.durable.row
    requires w.writer.checkpoint.Some? && w.writer.checkpoint.value.revision < U64_MAX
    requires scope != [] && Covers(route.server.schema, scope) && TargetsEmpty(s.sink.durable.tables, scope)
    requires WholeStream(route.owner.source, scope, batches, 0)
    requires Taken(route.server.schema, batches, 0, s.sink.durable.tables)
    requires CarriesView(route.server.schema, w.view.value.tables, scope, batches)
    requires forall i :: 0 <= i < |scope| ==> scope[i] in w.view.value.tables
    ensures IsCopyOf(route, w.view.value, scope, CopySnapshot(route.server, w.writer, s.sink, scope, batches, true))
  {
    var schema, tables := route.server.schema, s.sink.durable.tables;
    CopySucceedsFrom(schema, route.owner.source, scope, batches, Progress(0, 0, tables));
    var end := CopyAll(schema, route.owner.source, scope, batches, Progress(0, 0, tables)).value;
    CopiedTables(route, s.source, w.view.value, route.owner.source, scope, batches, tables, end);
    CopyCountsView(schema, route.owner.source, w.view.value.tables, scope, batches, tables, end);
  }

  /** Conversely, a copy that succeeds has read one last batch of each scope table, in scope order, and no others. */
  lemma {:induction false} CopyNeedsWholeStream(server: Server, w: Writer, s: Sink, scope: seq<TableId>, batches: Items,
                                                acknowledged: bool)
    requires CopySnapshot(server, w, s, scope, batches, acknowledged).sink != s
    ensures scope != [] && WholeStream(w.owner.source, scope, batches, 0) && Finished(batches) == scope
    ensures w.checkpoint.Some? && w.checkpoint.value.phase == Snapshot && s.durable.row == w.checkpoint
    ensures s.pending.None? && w.checkpoint.value.revision < U64_MAX
    ensures forall i :: 0 <= i < |scope| ==>
              scope[i] in s.durable.tables && s.durable.tables[scope[i]] == {} && !IsControlSchema(scope[i].schema)
  {
    CopySucceedsFrom(server.schema, w.owner.source, scope, batches, Progress(0, 0, s.durable.tables));
    assert scope[0..] == scope;
  }
}
