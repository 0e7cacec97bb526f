/**
 Whole runs of replication: a source that keeps committing, a sink, and any number of workers at once,
 each with its own checkpoint writer and its own place in the source's stream. Workers come and go; a
 commit whose acknowledgement was lost may take effect at any later time, or never. The advisory lock
 that the source code takes only removes runs from this system.
 */
module Replication {
  import opened Outcomes
  import opened Cursor
  import opened Images
  import opened Rows
  import opened Simulation
  import opened Checkpoints
  import opened Copying
  import opened SourceLogs

  // ---------------------------------------------------------------- states

  /** Where a stream was opened: everything at or before it is filtered out. */
  datatype Start = Start(mode: Mode, position: Position, gtids: Option<Gtids>)

  /** A snapshot reader's boundary and the tables its read view shows. */
  datatype View = View(boundary: Boundary, tables: Tables)

  /** `next` is the log index the stream delivers next. */
  datatype Worker = Worker(writer: Writer, start: Option<Start>, next: nat, view: Option<View>)

  /**
   What has been committed since the row became incremental: `base` counts the transactions before the
   boundary, `gtids` and `revision` are the row's then, and `commits` lists the log indices applied since.
   */
  datatype Ledger = Ledger(base: nat, gtids: Gtids, revision: nat, commits: seq<nat>)

  datatype State = State(source: Source, sink: Sink, workers: seq<Worker>, ledger: Ledger, pendingLedger: Ledger)

  // ---------------------------------------------------------------- steps

  datatype Action =
    | SourceCommit(txn: Txn, tables: Tables, end: nat)
    | SourceRotate(end: nat)
    | Connect
    | Disconnect(k: nat)
    | Reconnect(k: nat)
    | InitializeAt(k: nat, mode: Mode, position: Position, gtids: Option<Gtids>, acknowledged: bool)
    | Prepare(k: nat, view: View, acknowledged: bool)
    | Copy(k: nat, scope: seq<TableId>, batches: seq<Result<Batch, ()>>, acknowledged: bool)
    | OpenStream(k: nat)
    | SkipFiltered(k: nat)
    | ObserveNext(k: nat)
    | ApplyAt(k: nat, i: nat, acknowledged: bool)
    | ResolveNext(k: nat)
    | Finish(landed: bool)

  /** The source commits one more transaction, past everything before it. */
  ghost predicate Commits(route: Route, src: Source, a: Action, longer: Source)
    requires |src.states| == |src.log| + 1
  {
    && a.SourceCommit?
    && GoodTxn(route, a.txn)
    && src.end < At(route, a.txn.position) <= a.end
    && a.txn.id !in src.purged && (forall i :: 0 <= i < |src.log| ==> src.log[i].id != a.txn.id)
    && LoggedAll(route.server.schema, src.states[|src.log|], a.txn.changes, a.tables)
    && KeyedTables(route.server.schema, a.tables)
    && longer == Source(src.log + [a.txn], src.states + [a.tables], a.end, src.purged)
  }

  /** A boundary of this source: a position not past its end, with ids from transactions not past the position. */
  ghost predicate SourceBoundary(route: Route, src: Source, mode: Mode, p: Position, gtids: Gtids) {
    SameKind(route, mode) && Placed(route, p) && At(route, p) <= src.end && AllBehind(route, src, gtids, At(route, p))
  }

  ghost function TablesAt(route: Route, src: Source, p: Position): Tables
    requires |src.states| == |src.log| + 1
  {
    src.states[Cut(route, src.log, At(route, p))]
  }

  /** A reader's view shows the tables at its boundary. */
  ghost predicate GoodView(route: Route, src: Source, v: View)
    requires |src.states| == |src.log| + 1
  {
    && SourceBoundary(route, src, v.boundary.mode, v.boundary.position, v.boundary.executed)
    && v.tables == TablesAt(route, src, v.boundary.position)
  }

  /** The operator starts a route without a snapshot only where the sink already equals the source. */
  ghost predicate GoodStart(route: Route, src: Source, tables: Tables, mode: Mode, p: Position, gtids: Option<Gtids>)
    requires |src.states| == |src.log| + 1
  {
    && SourceBoundary(route, src, mode, p, Elements(gtids))
    && tables == ProjectAll(route.server.schema, TablesAt(route, src, p))
  }

  function Filtered(route: Route, start: Start, t: Txn): bool {
    if start.mode == Gtid then t.id in Elements(start.gtids) else At(route, t.position) <= At(route, start.position)
  }

  /** The planner's input for one logged transaction. */
  ghost predicate AttemptFor(route: Route, t: Txn, a: Attempt) {
    && a.source == route.owner.source && a.id == t.id && a.cursor == t.cursor
    && (t.changes == [] ==> a.plan == None)
    && (t.changes != [] ==> a.plan.Some? && AllValid(t.changes) && PlanChanges(t.changes) == Ok(a.plan.value))
  }

  /** Worker `k` becomes `worker` and the sink `sink`; `ledger` goes with whatever the sink wrote. */
  function After(s: State, k: nat, worker: Worker, sink: Sink, ledger: Ledger): State
    requires k < |s.workers|
  {
    s.(workers := s.workers[k := worker], sink := sink,
       ledger := if sink.durable == s.sink.durable then s.ledger else ledger,
       pendingLedger := if sink.pending == s.sink.pending then s.pendingLedger else ledger)
  }

  ghost predicate Initializes(route: Route, s: State, a: Action, t: State)
    requires a.InitializeAt? && a.k < |s.workers| && |s.source.states| == |s.source.log| + 1
  {
    var w := s.workers[a.k];
    var o := Initialize(w.writer, s.sink, a.mode, a.position, a.gtids, a.acknowledged);
    && GoodStart(route, s.source, s.sink.durable.tables, a.mode, a.position, a.gtids)
    && t == After(s, a.k, w.(writer := o.writer), o.sink,
                  Ledger(Cut(route, s.source.log, At(route, a.position)), Elements(a.gtids), 0, []))
  }

  /** A worker keeps its reader only while the marker it prepared is known to be durable. */
  ghost predicate Prepares(route: Route, s: State, a: Action, t: State)
    requires a.Prepare? && a.k < |s.workers| && |s.source.states| == |s.source.log| + 1
  {
    var w := s.workers[a.k];
    var o := PrepareSnapshot(w.writer, s.sink, a.view.boundary, a.acknowledged);
    && GoodView(route, s.source, a.view)
    && t == After(s, a.k, w.(writer := o.writer, view := if o.result.Ok? then Some(a.view) else None), o.sink,
                  Ledger(0, {}, 0, []))
  }

  /** The batches scan the worker's view, or the reader fails before it has. */
  ghost predicate Copies(route: Route, s: State, a: Action, t: State)
    requires a.Copy? && a.k < |s.workers|
  {
    var w := s.workers[a.k];
    var o := CopySnapshot(route.server, w.writer, s.sink, a.scope, a.batches, a.acknowledged);
    && w.view.Some?
    && Covers(route.server.schema, a.scope)
    && (CarriesView(route.server.schema, w.view.value.tables, a.scope, a.batches) || BreaksOff(a.batches))
    && w.writer.checkpoint.Some?
    && t == After(s, a.k, w.(writer := o.writer, view := None), o.sink,
                  Ledger(Cut(route, s.source.log, At(route, w.view.value.boundary.position)),
                         Elements(BoundaryGtids(w.view.value.boundary)), w.writer.checkpoint.value.revision + 1, []))
  }

  ghost predicate OpensStream(s: State, a: Action, t: State)
    requires a.OpenStream? && a.k < |s.workers|
  {
    var w := s.workers[a.k];
    && w.writer.checkpoint.Some? && w.writer.checkpoint.value.phase == Incremental
    && var cp := w.writer.checkpoint.value;
       t == s.(workers := s.workers[a.k := w.(start := Some(Start(cp.mode, cp.position, cp.gtids)), next := 0)])
  }

  /** The stream holds a transaction to deliver. */
  ghost predicate Delivers(s: State, k: nat) {
    k < |s.workers| && s.workers[k].start.Some? && s.workers[k].next < |s.source.log|
  }

  ghost predicate Skips(route: Route, s: State, a: Action, t: State)
    requires a.SkipFiltered? && Delivers(s, a.k)
  {
    var w := s.workers[a.k];
    && Filtered(route, w.start.value, s.source.log[w.next])
    && t == s.(workers := s.workers[a.k := w.(next := w.next + 1)])
  }

  ghost predicate Observes(route: Route, s: State, a: Action, t: State)
    requires a.ObserveNext? && Delivers(s, a.k)
  {
    var w := s.workers[a.k];
    var txn := s.source.log[w.next];
    var r := Observe(route.server, w.writer, txn.changes == [], route.owner.source, txn.id, txn.cursor);
    t == if r.Ok? then s.(workers := s.workers[a.k := w.(writer := r.value, next := w.next + 1)]) else s
  }

  /** Applying the next transaction, or again one that was delivered before. */
  ghost predicate AppliesTo(route: Route, s: State, a: Action, t: State)
    requires a.ApplyAt? && Delivers(s, a.k)
  {
    var w := s.workers[a.k];
    && a.i <= w.next
    && exists attempt :: AppliesAttempt(route, s, a, attempt, t)
  }

  ghost predicate AppliesAttempt(route: Route, s: State, a: Action, attempt: Attempt, t: State)
    requires a.ApplyAt? && Delivers(s, a.k) && a.i <= s.workers[a.k].next
  {
    && AttemptFor(route, s.source.log[a.i], attempt)
    && t == AfterApply(s, a.k, a.i, Apply(route.server, s.workers[a.k].writer, s.sink, attempt, a.acknowledged))
  }

  /** The stream moves on when the next transaction is applied, or was applied before. */
  function AfterApply(s: State, k: nat, i: nat, o: Outcome<ApplyResult>): State
    requires k < |s.workers|
  {
    var w := s.workers[k];
    var next := if o.result.Ok? && i == w.next then w.next + 1 else w.next;
    After(s, k, w.(writer := o.writer, next := next), o.sink, s.ledger.(commits := s.ledger.commits + [i]))
  }

  /** After an unknown commit the worker goes on only when the transaction is known to be applied. */
  ghost predicate Resolves(route: Route, s: State, a: Action, t: State)
    requires a.ResolveNext? && Delivers(s, a.k)
  {
    var w := s.workers[a.k];
    var txn := s.source.log[w.next];
    var r := Resolve(route.server, w.writer, s.sink, route.owner.source, txn.id, txn.cursor);
    t == if r == Ok(Applied) then s.(workers := s.workers[a.k := w.(next := w.next + 1)]) else s
  }

  ghost predicate Takes(route: Route, s: State, a: Action, t: State)
    requires |s.source.states| == |s.source.log| + 1
  {
    match a
    case SourceCommit(_, _, _) => Commits(route, s.source, a, t.source) && t == s.(source := t.source)
    case SourceRotate(end) => s.source.end <= end && t == s.(source := s.source.(end := end))
    case Connect =>
      var w := Open(route.owner, s.sink);
      t == if w.Ok? then s.(workers := s.workers + [Worker(w.value, None, 0, None)]) else s
    case Disconnect(k) => k < |s.workers| && t == s.(workers := s.workers[..k] + s.workers[k + 1..])
    case Reconnect(k) =>
      var w := Open(route.owner, s.sink);
      && k < |s.workers|
      && t == if w.Ok? then s.(workers := s.workers[k := s.workers[k].(writer := w.value, view := None)]) else s
    case InitializeAt(k, _, _, _, _) => k < |s.workers| && Initializes(route, s, a, t)
    case Prepare(k, _, _) => k < |s.workers| && Prepares(route, s, a, t)
    case Copy(k, _, _, _) => k < |s.workers| && Copies(route, s, a, t)
    case OpenStream(k) => k < |s.workers| && OpensStream(s, a, t)
    case SkipFiltered(k) => Delivers(s, k) && Skips(route, s, a, t)
    case ObserveNext(k) => Delivers(s, k) && Observes(route, s, a, t)
    case ApplyAt(k, i, _) => Delivers(s, k) && AppliesTo(route, s, a, t)
    case ResolveNext(k) => Delivers(s, k) && Resolves(route, s, a, t)
    case Finish(landed) =>
      t == s.(sink := Settle(s.sink, landed),
              ledger := if s.sink.pending.Some? && landed then s.pendingLedger else s.ledger)
  }

  ghost predicate GoodRoute(route: Route) {
    && route.initial.Keys == route.server.schema.Keys
    && forall t :: t in route.server.schema ==> GoodDef(route.server.schema[t])
  }

  ghost predicate Starts(route: Route, s: State) {
    && GoodSource(route, s.source)
    && s.sink == Sink(Durable(None, route.initial), None)
    && s.workers == []
  }

  ghost predicate TakesAt(route: Route, run: seq<State>, actions: seq<Action>, n: nat)
    requires |run| == |actions| + 1 && n < |actions|
  {
    |run[n].source.states| == |run[n].source.log| + 1 && Takes(route, run[n], actions[n], run[n + 1])
  }

  /** A run: every state follows from the one before it by some action. */
  ghost predicate IsRun(route: Route, run: seq<State>, actions: seq<Action>) {
    && |run| == |actions| + 1
    && Starts(route, run[0])
    && forall n :: 0 <= n < |actions| ==> TakesAt(route, run, actions, n)
  }

  // ---------------------------------------------------------------- the invariant

  /** A row of this task, placed in the source's history. */
  ghost predicate GoodRow(route: Route, src: Source, cp: Checkpoint) {
    && cp.owner == route.owner
    && SourceBoundary(route, src, cp.mode, cp.position, Elements(cp.gtids))
    && (cp.gtids.Some? <==> cp.mode == Gtid)
  }

  ghost predicate Increasing(commits: seq<nat>) {
    forall i, j :: 0 <= i < j < |commits| ==> commits[i] < commits[j]
  }

  function Last(base: nat, commits: seq<nat>): nat {
    if commits == [] then base else commits[|commits| - 1] + 1
  }

  function SumRows(log: seq<Txn>, commits: seq<nat>): nat
    requires forall i :: 0 <= i < |commits| ==> commits[i] < |log|
  {
    if commits == [] then 0
    else SumRows(log, commits[..|commits| - 1]) + |log[commits[|commits| - 1]].changes|
  }

  function CountWithRows(log: seq<Txn>, commits: seq<nat>): nat
    requires forall i :: 0 <= i < |commits| ==> commits[i] < |log|
  {
    if commits == [] then 0
    else CountWithRows(log, commits[..|commits| - 1])
         + (if |log[commits[|commits| - 1]].changes| > 0 then 1 else 0)
  }

  ghost predicate InLog(src: Source, ledger: Ledger) {
    ledger.base <= |src.log| && forall i :: 0 <= i < |ledger.commits| ==> ledger.base <= ledger.commits[i] < |src.log|
  }

  ghost predicate AllRecorded(src: Source, commits: seq<nat>, gtids: Gtids)
    requires forall i :: 0 <= i < |commits| ==> commits[i] < |src.log|
  {
    forall i :: 0 <= i < |commits| ==> src.log[commits[i]].id in gtids
  }

  /** Every selected transaction between the boundary and the position was committed, once and in order. */
  ghost predicate GoodLedger(route: Route, src: Source, cp: Checkpoint, ledger: Ledger) {
    && InLog(src, ledger) && Increasing(ledger.commits)
    && Cut(route, src.log, At(route, cp.position)) == Last(ledger.base, ledger.commits)
    && (forall j :: ledger.base <= j < Last(ledger.base, ledger.commits) && src.log[j].changes != [] ==>
          j in ledger.commits)
    && cp.revision == ledger.revision + |ledger.commits|
    && (cp.mode == Gtid ==> ledger.gtids <= Elements(cp.gtids) && AllRecorded(src, ledger.commits, Elements(cp.gtids)))
    && cp.appliedRows == SumRows(src.log, ledger.commits)
    && cp.appliedTransactions == CountWithRows(src.log, ledger.commits)
    && (if ledger.commits == [] then cp.last.None?
        else
          var txn := src.log[ledger.commits[|ledger.commits| - 1]];
          cp.last == Some(txn.id) && cp.position == txn.position)
  }

  ghost predicate GoodDurable(route: Route, src: Source, d: Durable, ledger: Ledger)
    requires |src.states| == |src.log| + 1
  {
    && d.tables.Keys == route.server.schema.Keys
    && (d.row.None? ==> d.tables == route.initial)
    && (d.row.Some? ==>
          var cp := d.row.value;
          && GoodRow(route, src, cp)
          && (cp.phase == Snapshot ==>
                d.tables == route.initial && cp.last.None? && cp.appliedRows == 0 && cp.appliedTransactions == 0)
          && (cp.phase == Incremental ==>
                && d.tables == ProjectAll(route.server.schema, TablesAt(route, src, cp.position))
                && GoodLedger(route, src, cp, ledger)))
  }

  /** `e` is a later durable state of the sink than `d`. */
  ghost predicate Later(route: Route, d: Durable, e: Durable) {
    && e.row.Some?
    && (d.row.Some? ==>
          && d.row.value.revision < e.row.value.revision
          && (d.row.value.phase == Incremental ==>
                && e.row.value.phase == Incremental && e.row.value.last.Some?
                && e.row.value.mode == d.row.value.mode
                && At(route, d.row.value.position) < At(route, e.row.value.position)
                && Elements(d.row.value.gtids) <= Elements(e.row.value.gtids)
                && e.row.value.snapshotRows == d.row.value.snapshotRows
                && e.row.value.snapshotGtids == d.row.value.snapshotGtids))
  }

  /** One commit leads from `d` to `e`. */
  ghost predicate Follows(route: Route, d: Durable, e: Durable) {
    Later(route, d, e) && (d.row.Some? ==> e.row.value.revision == d.row.value.revision + 1)
  }

  /** What a writer remembers is the durable row, or one the row has left behind for good. */
  ghost predicate GoodWriter(route: Route, src: Source, d: Durable, w: Writer) {
    && w.owner == route.owner
    && (w.checkpoint.Some? ==>
          && d.row.Some?
          && GoodRow(route, src, w.checkpoint.value)
          && (w.checkpoint == d.row || w.checkpoint.value.revision < d.row.value.revision)
          && (w.checkpoint.value.phase == Incremental ==>
                && d.row.value.phase == Incremental
                && At(route, w.checkpoint.value.position) <= At(route, d.row.value.position)))
    && (w.observedGtids.Some? ==> w.observedPosition.Some?)
    && (w.observedPosition.Some? ==>
          && Placed(route, w.observedPosition.value)
          && AllBehind(route, src, Elements(w.observedGtids), At(route, w.observedPosition.value)))
  }

  /** Everything a stream has delivered or skipped was filtered, or lies behind the durable position. */
  ghost predicate GoodStream(route: Route, src: Source, d: Durable, start: Start, next: nat) {
    && next <= |src.log|
    && d.row.Some? && d.row.value.phase == Incremental
    && SourceBoundary(route, src, start.mode, start.position, Elements(start.gtids))
    && At(route, start.position) <= At(route, d.row.value.position)
    && forall j :: 0 <= j < next ==>
         src.log[j].changes == [] || At(route, src.log[j].position) <= At(route, d.row.value.position)
  }

  /** No transaction with selected rows up to an observed position is still to be applied. */
  ghost predicate NothingMissed(route: Route, src: Source, d: Durable, p: Position) {
    && At(route, p) <= src.end
    && d.row.Some? && d.row.value.phase == Incremental
    && forall j :: 0 <= j < |src.log| && src.log[j].changes != [] && At(route, src.log[j].position) <= At(route, p) ==>
         At(route, src.log[j].position) <= At(route, d.row.value.position)
  }

  ghost predicate GoodWorker(route: Route, src: Source, d: Durable, w: Worker)
    requires |src.states| == |src.log| + 1
  {
    && GoodWriter(route, src, d, w.writer)
    && (w.writer.observedPosition.Some? ==> NothingMissed(route, src, d, w.writer.observedPosition.value))
    && (w.start.Some? ==> w.writer.checkpoint.Some? && GoodStream(route, src, d, w.start.value, w.next))
    && (w.view.Some? ==>
          && GoodView(route, src, w.view.value)
          && w.writer.checkpoint.Some? && w.writer.checkpoint.value.phase == Snapshot
          && w.writer.checkpoint.value.position == w.view.value.boundary.position
          && w.writer.checkpoint.value.mode == w.view.value.boundary.mode
          && w.writer.checkpoint.value.gtids == BoundaryGtids(w.view.value.boundary))
  }

  ghost predicate Inv(route: Route, s: State) {
    && GoodSource(route, s.source)
    && GoodDurable(route, s.source, s.sink.durable, s.ledger)
    && (s.sink.pending.Some? ==>
          && GoodDurable(route, s.source, s.sink.pending.value, s.pendingLedger)
          && Follows(route, s.sink.durable, s.sink.pending.value))
    && forall k :: 0 <= k < |s.workers| ==> GoodWorker(route, s.source, s.sink.durable, s.workers[k])
  }
}
