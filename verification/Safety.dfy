/** Every action keeps the replication invariant, so it holds in every state of every run. */
module Safety {
  import opened Outcomes
  import opened Cursor
  import opened Images
  import opened Rows
  import opened Simulation
  import opened Checkpoints
  import opened Copying
  import opened SourceLogs
  import opened Replication

  // ---------------------------------------------------------------- the source commits

  lemma {:induction false} LongerLog(route: Route, src: Source, a: Action, longer: Source)
    requires GoodSource(route, src) && Commits(route, src, a, longer)
    ensures GoodSource(route, longer) && Extends(route, src, longer)
  {
    assert GoodLog(route, longer);
    forall i | 0 <= i < |longer.log|
      ensures AppliesAt(route, longer, i)
    {
      assert i < |src.log| ==> AppliesAt(route, src, i);
      if i == |src.log| {
        KeyedAt(route, src, i);
      }
    }
  }

  lemma {:induction false} GrowBoundary(route: Route, src: Source, longer: Source, mode: Mode, p: Position,
                                        gtids: Gtids)
    requires GoodLog(route, src) && GoodLog(route, longer) && Extends(route, src, longer)
    requires SourceBoundary(route, src, mode, p, gtids)
    ensures SourceBoundary(route, longer, mode, p, gtids)
    ensures Cut(route, longer.log, At(route, p)) == Cut(route, src.log, At(route, p))
    ensures TablesAt(route, longer, p) == TablesAt(route, src, p)
  {
    BehindGrows(route, src, longer, gtids, At(route, p), At(route, p));
    CutIsStable(route, src, longer, At(route, p));
  }

  lemma {:induction false} GrowSums(log: seq<Txn>, longer: seq<Txn>, commits: seq<nat>)
    requires log <= longer && forall i :: 0 <= i < |commits| ==> commits[i] < |log|
    ensures SumRows(longer, commits) == SumRows(log, commits)
    ensures CountWithRows(longer, commits) == CountWithRows(log, commits)
    decreases |commits|
  {
    if commits != [] {
      GrowSums(log, longer, commits[..|commits| - 1]);
    }
  }

  lemma {:induction false} GrowLedger(route: Route, src: Source, longer: Source, cp: Checkpoint, ledger: Ledger)
    requires GoodLog(route, src) && GoodLog(route, longer) && Extends(route, src, longer)
    requires GoodRow(route, src, cp) && GoodLedger(route, src, cp, ledger)
    ensures GoodLedger(route, longer, cp, ledger)
  {
    GrowBoundary(route, src, longer, cp.mode, cp.position, Elements(cp.gtids));
    GrowSums(src.log, longer.log, ledger.commits);
  }

  lemma {:induction false} GrowDurable(route: Route, src: Source, longer: Source, d: Durable, ledger: Ledger)
    requires GoodLog(route, src) && GoodLog(route, longer) && Extends(route, src, longer)
    requires GoodDurable(route, src, d, ledger)
    ensures GoodDurable(route, longer, d, ledger)
  {
    if d.row.Some? {
      var cp := d.row.value;
      GrowBoundary(route, src, longer, cp.mode, cp.position, Elements(cp.gtids));
      if cp.phase == Incremental {
        GrowLedger(route, src, longer, cp, ledger);
      }
    }
  }

  lemma {:induction false} GrowWriter(route: Route, src: Source, longer: Source, d: Durable, w: Writer)
    requires GoodLog(route, src) && GoodLog(route, longer) && Extends(route, src, longer)
    requires GoodWriter(route, src, d, w)
    ensures GoodWriter(route, longer, d, w)
  {
    if w.checkpoint.Some? {
      var cp := w.checkpoint.value;
      GrowBoundary(route, src, longer, cp.mode, cp.position, Elements(cp.gtids));
    }
    if w.observedPosition.Some? {
      var r := At(route, w.observedPosition.value);
      BehindGrows(route, src, longer, Elements(w.observedGtids), r, r);
    }
  }

  lemma {:induction false} GrowWorker(route: Route, src: Source, longer: Source, d: Durable, w: Worker)
    requires GoodLog(route, src) && GoodLog(route, longer) && Extends(route, src, longer)
    requires GoodWorker(route, src, d, w)
    ensures GoodWorker(route, longer, d, w)
  {
    GrowWriter(route, src, longer, d, w.writer);
    if w.start.Some? {
      var start := w.start.value;
      GrowBoundary(route, src, longer, start.mode, start.position, Elements(start.gtids));
    }
    if w.view.Some? {
      var b := w.view.value.boundary;
      GrowBoundary(route, src, longer, b.mode, b.position, b.executed);
    }
  }

  lemma {:induction false} GrowthKeeps(route: Route, s: State, t: State)
    requires Inv(route, s) && GoodSource(route, t.source) && Extends(route, s.source, t.source)
    requires t == s.(source := t.source)
    ensures Inv(route, t)
  {
    GrowDurable(route, s.source, t.source, s.sink.durable, s.ledger);
    if s.sink.pending.Some? {
      GrowDurable(route, s.source, t.source, s.sink.pending.value, s.pendingLedger);
    }
    forall k | 0 <= k < |s.workers|
      ensures GoodWorker(route, t.source, s.sink.durable, s.workers[k])
    {
      GrowWorker(route, s.source, t.source, s.sink.durable, s.workers[k]);
    }
  }

  lemma {:induction false} RotatedLog(route: Route, src: Source, longer: Source)
    requires GoodSource(route, src) && src.end <= longer.end && longer == src.(end := longer.end)
    ensures GoodSource(route, longer) && Extends(route, src, longer)
  {
    assert GoodLog(route, longer);
    forall i | 0 <= i < |longer.log|
      ensures AppliesAt(route, longer, i)
    {
      assert AppliesAt(route, src, i);
    }
  }

  lemma {:induction false} SourceKeeps(route: Route, s: State, a: Action, t: State)
    requires Inv(route, s) && (a.SourceCommit? || a.SourceRotate?) && Takes(route, s, a, t)
    ensures Inv(route, t)
  {
    if a.SourceCommit? {
      LongerLog(route, s.source, a, t.source);
    } else {
      RotatedLog(route, s.source, t.source);
    }
    GrowthKeeps(route, s, t);
  }

  // ---------------------------------------------------------------- the sink moves on

  lemma {:induction false} FollowWorker(route: Route, src: Source, d: Durable, e: Durable, w: Worker)
    requires |src.states| == |src.log| + 1
    requires GoodWorker(route, src, d, w) && Follows(route, d, e)
    ensures GoodWorker(route, src, e, w)
  {
  }

  lemma {:induction false} FinishKeeps(route: Route, s: State, a: Action, t: State)
    requires Inv(route, s) && a.Finish? && Takes(route, s, a, t)
    ensures Inv(route, t)
  {
    if s.sink.pending.Some? && a.landed {
      forall k | 0 <= k < |s.workers|
        ensures GoodWorker(route, s.source, s.sink.pending.value, s.workers[k])
      {
        FollowWorker(route, s.source, s.sink.durable, s.sink.pending.value, s.workers[k]);
      }
    }
  }

  /** What a sink operation may do to the sink: nothing, or one commit on top of what is durable. */
  ghost predicate Writes(route: Route, s: State, sink: Sink, ledger: Ledger)
    requires |s.source.states| == |s.source.log| + 1
  {
    || sink == s.sink
    || (s.sink.pending.None?
        && exists next: Durable ::
             && GoodDurable(route, s.source, next, ledger) && Follows(route, s.sink.durable, next)
             && (sink == Sink(next, None) || sink == Sink(s.sink.durable, Some(next))))
  }

  lemma {:induction false} Wrote(route: Route, s: State, next: Durable, ledger: Ledger, acknowledged: bool)
    requires Inv(route, s) && s.sink.pending.None?
    requires GoodDurable(route, s.source, next, ledger) && Follows(route, s.sink.durable, next)
    ensures Writes(route, s, Commit(s.sink, next, acknowledged), ledger)
  {
  }

  /** Replacing one worker, together with a sink operation, keeps the invariant. */
  lemma {:induction false} AfterKeeps(route: Route, s: State, k: nat, w: Worker, sink: Sink, ledger: Ledger, t: State)
    requires Inv(route, s) && k < |s.workers| && Writes(route, s, sink, ledger)
    requires GoodWorker(route, s.source, sink.durable, w)
    requires t == After(s, k, w, sink, ledger)
    ensures Inv(route, t)
  {
    forall j | 0 <= j < |t.workers|
      ensures GoodWorker(route, s.source, sink.durable, t.workers[j])
    {
      if j != k && sink.durable != s.sink.durable {
        FollowWorker(route, s.source, s.sink.durable, sink.durable, s.workers[j]);
      }
    }
  }

  lemma {:induction false} WorkerKeeps(route: Route, s: State, k: nat, w: Worker)
    requires Inv(route, s) && k < |s.workers| && GoodWorker(route, s.source, s.sink.durable, w)
    ensures Inv(route, s.(workers := s.workers[k := w]))
  {
  }

  /** A writer that learns of its own commit. */
  lemma {:induction false} AdoptRow(route: Route, src: Source, d: Durable, e: Durable, ledger: Ledger,
                                    w: Worker, writer: Writer,
                                    view: Option<View>)
    requires |src.states| == |src.log| + 1
    requires GoodWorker(route, src, d, w) && GoodDurable(route, src, e, ledger) && Follows(route, d, e)
    requires writer == w.writer.(checkpoint := e.row) || writer == Writer(route.owner, e.row, None, None)
    requires view.Some? ==>
               && GoodView(route, src, view.value) && e.row.value.phase == Snapshot
               && e.row.value.position == view.value.boundary.position
               && e.row.value.mode == view.value.boundary.mode
               && e.row.value.gtids == BoundaryGtids(view.value.boundary)
    ensures GoodWorker(route, src, e, w.(writer := writer, view := view))
  {
    FollowWorker(route, src, d, e, w);
  }

  // ---------------------------------------------------------------- boundaries

  lemma {:induction false} FreshDurable(route: Route, s: State, a: Action)
    requires GoodRoute(route) && Inv(route, s) && a.InitializeAt? && s.sink.durable.row.None?
    requires GoodStart(route, s.source, s.sink.durable.tables, a.mode, a.position, a.gtids)
    requires a.gtids.Some? <==> a.mode == Gtid
    ensures
      var next := s.sink.durable.(row := Some(Fresh(route.owner, a.mode, a.position, a.gtids)));
      var ledger := Ledger(Cut(route, s.source.log, At(route, a.position)), Elements(a.gtids), 0, []);
      && GoodDurable(route, s.source, next, ledger)
      && Follows(route, s.sink.durable, next)
  {
  }

  lemma {:induction false} InitializeKeeps(route: Route, s: State, a: Action, t: State)
    requires GoodRoute(route) && Inv(route, s) && a.InitializeAt? && a.k < |s.workers| && Initializes(route, s, a, t)
    ensures Inv(route, t)
  {
    var w := s.workers[a.k];
    var o := Initialize(w.writer, s.sink, a.mode, a.position, a.gtids, a.acknowledged);
    var ledger := Ledger(Cut(route, s.source.log, At(route, a.position)), Elements(a.gtids), 0, []);
    if o.sink != s.sink {
      var next := s.sink.durable.(row := Some(Fresh(route.owner, a.mode, a.position, a.gtids)));
      FreshDurable(route, s, a);
      if a.acknowledged {
        AdoptRow(route, s.source, s.sink.durable, next, ledger, w, o.writer, w.view);
      }
    }
    AfterKeeps(route, s, a.k, w.(writer := o.writer), o.sink, ledger, t);
  }

  lemma {:induction false} MarkedDurable(route: Route, s: State, v: View)
    requires Inv(route, s) && GoodView(route, s.source, v) && v.boundary.mode != PostgresqlLsn
    requires s.sink.durable.row.Some? ==> s.sink.durable.row.value.phase == Snapshot
    ensures
      var next := s.sink.durable.(row := Some(MarkedRow(route.owner, s.sink.durable.row, v.boundary)));
      GoodDurable(route, s.source, next, Ledger(0, {}, 0, [])) && Follows(route, s.sink.durable, next)
  {
  }

  lemma {:induction false} PrepareEffect(w: Writer, s: Sink, b: Boundary, acknowledged: bool)
    requires PrepareSnapshot(w, s, b, acknowledged).sink != s
    ensures
      var o := PrepareSnapshot(w, s, b, acknowledged);
      var next := s.durable.(row := Some(MarkedRow(w.owner, s.durable.row, b)));
      && b.mode != PostgresqlLsn && s.pending.None? && s.durable.row == w.checkpoint
      && (s.durable.row.Some? ==> s.durable.row.value.phase == Snapshot)
      && o.sink == Commit(s, next, acknowledged)
      && o.writer == (if acknowledged then w.(checkpoint := next.row) else w)
      && o.result.Ok? == acknowledged
  {
  }

  lemma {:induction false} PrepareFails(w: Writer, s: Sink, b: Boundary, acknowledged: bool)
    requires PrepareSnapshot(w, s, b, acknowledged).sink == s
    ensures PrepareSnapshot(w, s, b, acknowledged).writer == w
    ensures PrepareSnapshot(w, s, b, acknowledged).result.Err?
  {
  }

  lemma {:induction false} PrepareKeeps(route: Route, s: State, a: Action, t: State)
    requires Inv(route, s) && a.Prepare? && a.k < |s.workers| && Prepares(route, s, a, t)
    ensures Inv(route, t)
  {
    var w, b, d := s.workers[a.k], a.view.boundary, s.sink.durable;
    var o := PrepareSnapshot(w.writer, s.sink, b, a.acknowledged);
    var worker := w.(writer := o.writer, view := if o.result.Ok? then Some(a.view) else None);
    var ledger := Ledger(0, {}, 0, []);
    if o.sink != s.sink {
      var next := d.(row := Some(MarkedRow(route.owner, d.row, b)));
      PrepareEffect(w.writer, s.sink, b, a.acknowledged);
      MarkedDurable(route, s, a.view);
      Wrote(route, s, next, ledger, a.acknowledged);
      if a.acknowledged {
        AdoptRow(route, s.source, d, next, ledger, w, o.writer, worker.view);
      }
    } else {
      PrepareFails(w.writer, s.sink, b, a.acknowledged);
    }
    AfterKeeps(route, s, a.k, worker, o.sink, ledger, t);
  }

  lemma {:induction false} CopyEffect(server: Server, w: Writer, d: Durable, scope: seq<TableId>,
                                      batches: seq<Result<Batch, ()>>, next: Durable, end: Progress)
    requires DecideCopy(server, w, d, scope, batches) == Ok(next)
    requires end == CopyAll(server.schema, w.owner.source, scope, batches, Progress(0, 0, d.tables)).value
    ensures w.checkpoint.Some? && d.row == w.checkpoint && d.row.value.phase == Snapshot
    ensures TargetsEmpty(d.tables, scope)
    ensures CopyAll(server.schema, w.owner.source, scope, batches, Progress(0, 0, d.tables)) == Ok(end)
    ensures
      var cp := d.row.value;
      var row := cp.(phase := Incremental, snapshotRows := end.rows, revision := cp.revision + 1);
      next == Durable(Some(row), end.tables)
  {
  }

  lemma {:induction false} CopiedDurable(route: Route, s: State, a: Action, w: Worker, next: Durable)
    requires Inv(route, s) && a.Copy? && GoodWorker(route, s.source, s.sink.durable, w) && w.view.Some?
    requires Covers(route.server.schema, a.scope)
    requires CarriesView(route.server.schema, w.view.value.tables, a.scope, a.batches) || BreaksOff(a.batches)
    requires DecideCopy(route.server, w.writer, s.sink.durable, a.scope, a.batches) == Ok(next)
    ensures
      var ledger := Ledger(Cut(route, s.source.log, At(route, w.view.value.boundary.position)),
                           Elements(BoundaryGtids(w.view.value.boundary)), w.writer.checkpoint.value.revision + 1, []);
      GoodDurable(route, s.source, next, ledger) && Follows(route, s.sink.durable, next)
  {
    var schema, tables := route.server.schema, s.sink.durable.tables;
    var end := CopyAll(schema, w.writer.owner.source, a.scope, a.batches, Progress(0, 0, tables)).value;
    CopyEffect(route.server, w.writer, s.sink.durable, a.scope, a.batches, next, end);
    if BreaksOff(a.batches) {
      BrokenCopyFails(schema, w.writer.owner.source, a.scope, a.batches, Progress(0, 0, tables));
    }
    CopiedTables(route, s.source, w.view.value, w.writer.owner.source, a.scope, a.batches, tables, end);
  }

  lemma {:induction false} CopiedTables(route: Route, src: Source, v: View, source: string, scope: seq<TableId>,
                                        batches: seq<Result<Batch, ()>>, tables: Tables, end: Progress)
    requires GoodSource(route, src) && GoodView(route, src, v) && Covers(route.server.schema, scope)
    requires CarriesView(route.server.schema, v.tables, scope, batches)
    requires tables.Keys == route.server.schema.Keys && TargetsEmpty(tables, scope)
    requires CopyAll(route.server.schema, source, scope, batches, Progress(0, 0, tables)) == Ok(end)
    ensures end.tables == ProjectAll(route.server.schema, TablesAt(route, src, v.boundary.position))
    ensures end.tables.Keys == route.server.schema.Keys
  {
    KeyedAt(route, src, Cut(route, src.log, At(route, v.boundary.position)));
    CopyEqualsView(route.server.schema, source, v.tables, scope, batches, tables, end);
  }

  /** The effect of `CopySnapshot` on the writer and the sink, by its decision. */
  ghost predicate CopyMeans(server: Server, w: Writer, s: Sink, scope: seq<TableId>, batches: seq<Result<Batch, ()>>,
                            acknowledged: bool, o: Outcome<Checkpoint>)
  {
    if o.sink == s then o.writer == w
    else
      && s.pending.None? && DecideCopy(server, w, s.durable, scope, batches).Ok?
      && var next := DecideCopy(server, w, s.durable, scope, batches).value;
         && o.sink == Commit(s, next, acknowledged)
         && o.writer == (if acknowledged then w.(checkpoint := next.row) else w)
  }

  lemma {:induction false} CopyEffectOnSink(server: Server, w: Writer, s: Sink, scope: seq<TableId>,
                                            batches: seq<Result<Batch, ()>>, acknowledged: bool)
    ensures CopyMeans(server, w, s, scope, batches, acknowledged,
                      CopySnapshot(server, w, s, scope, batches, acknowledged))
  {
  }

  /** The copy is committed, and the writer knows if it was acknowledged. */
  lemma {:induction false} CommittedCopyKeeps(route: Route, s: State, k: nat, ledger: Ledger, next: Durable,
                                              acknowledged: bool, writer: Writer, t: State)
    requires Inv(route, s) && k < |s.workers| && s.sink.pending.None?
    requires GoodDurable(route, s.source, next, ledger) && Follows(route, s.sink.durable, next)
    requires writer == if acknowledged then s.workers[k].writer.(checkpoint := next.row) else s.workers[k].writer
    requires t == After(s, k, s.workers[k].(writer := writer, view := None), Commit(s.sink, next, acknowledged), ledger)
    ensures Inv(route, t)
  {
    var w := s.workers[k];
    Wrote(route, s, next, ledger, acknowledged);
    if acknowledged {
      AdoptRow(route, s.source, s.sink.durable, next, ledger, w, writer, None);
    }
    AfterKeeps(route, s, k, w.(writer := writer, view := None), Commit(s.sink, next, acknowledged), ledger, t);
  }

  lemma {:induction false} CopiedKeeps(route: Route, s: State, a: Action, o: Outcome<Checkpoint>, ledger: Ledger,
                                       t: State)
    requires Inv(route, s) && a.Copy? && a.k < |s.workers| && s.workers[a.k].view.Some?
    requires s.workers[a.k].writer.checkpoint.Some? && Covers(route.server.schema, a.scope)
    requires
      || CarriesView(route.server.schema, s.workers[a.k].view.value.tables, a.scope, a.batches)
      || BreaksOff(a.batches)
    requires CopyMeans(route.server, s.workers[a.k].writer, s.sink, a.scope, a.batches, a.acknowledged, o)
    requires
      var w := s.workers[a.k];
      ledger == Ledger(Cut(route, s.source.log, At(route, w.view.value.boundary.position)),
                       Elements(BoundaryGtids(w.view.value.boundary)), w.writer.checkpoint.value.revision + 1, [])
    requires t == After(s, a.k, s.workers[a.k].(writer := o.writer, view := None), o.sink, ledger)
    ensures Inv(route, t)
  {
    var w := s.workers[a.k];
    if o.sink == s.sink {
      WorkerKeeps(route, s, a.k, w.(writer := o.writer, view := None));
    } else {
      var next := DecideCopy(route.server, w.writer, s.sink.durable, a.scope, a.batches).value;
      CopiedDurable(route, s, a, w, next);
      CommittedCopyKeeps(route, s, a.k, ledger, next, a.acknowledged, o.writer, t);
    }
  }

  lemma {:induction false} CopyKeeps(route: Route, s: State, a: Action, t: State)
    requires Inv(route, s) && a.Copy? && a.k < |s.workers| && Copies(route, s, a, t)
    ensures Inv(route, t)
  {
    var w := s.workers[a.k];
    CopyEffectOnSink(route.server, w.writer, s.sink, a.scope, a.batches, a.acknowledged);
    CopiedKeeps(route, s, a, CopySnapshot(route.server, w.writer, s.sink, a.scope, a.batches, a.acknowledged),
                Ledger(Cut(route, s.source.log, At(route, w.view.value.boundary.position)),
                       Elements(BoundaryGtids(w.view.value.boundary)), w.writer.checkpoint.value.revision + 1, []), t);
  }

  // ---------------------------------------------------------------- workers on their own

  lemma {:induction false} ConnectKeeps(route: Route, s: State, a: Action, t: State)
    requires Inv(route, s) && (a.Connect? || a.Reconnect? || a.Disconnect?) && Takes(route, s, a, t)
    ensures Inv(route, t)
  {
    if a.Reconnect? {
      var w := Open(route.owner, s.sink);
      if w.Ok? {
        WorkerKeeps(route, s, a.k, s.workers[a.k].(writer := w.value, view := None));
      }
    }
  }

  lemma {:induction false} OpenStreamKeeps(route: Route, s: State, a: Action, t: State)
    requires Inv(route, s) && a.OpenStream? && a.k < |s.workers| && OpensStream(s, a, t)
    ensures Inv(route, t)
  {
    var w := s.workers[a.k];
    var cp := w.writer.checkpoint.value;
    WorkerKeeps(route, s, a.k, w.(start := Some(Start(cp.mode, cp.position, cp.gtids)), next := 0));
  }

  lemma {:induction false} FilteredIsBehind(route: Route, src: Source, start: Start, i: nat)
    requires GoodLog(route, src) && i < |src.log| && Filtered(route, start, src.log[i])
    requires SourceBoundary(route, src, start.mode, start.position, Elements(start.gtids))
    ensures At(route, src.log[i].position) <= At(route, start.position)
  {
    if start.mode == Gtid {
      assert Behind(route, src, src.log[i].id, At(route, start.position));
      BehindMeaning(route, src, src.log[i].id, At(route, start.position), i);
    }
  }

  lemma {:induction false} SkippedWorker(route: Route, src: Source, d: Durable, w: Worker)
    requires GoodLog(route, src) && GoodWorker(route, src, d, w) && w.start.Some? && w.next < |src.log|
    requires Filtered(route, w.start.value, src.log[w.next])
    ensures GoodWorker(route, src, d, w.(next := w.next + 1))
  {
    FilteredIsBehind(route, src, w.start.value, w.next);
  }

  lemma {:induction false} SkipKeeps(route: Route, s: State, a: Action, t: State)
    requires Inv(route, s) && a.SkipFiltered? && Delivers(s, a.k) && Skips(route, s, a, t)
    ensures Inv(route, t)
  {
    var w := s.workers[a.k];
    SkippedWorker(route, s.source, s.sink.durable, w);
    WorkerKeeps(route, s, a.k, w.(next := w.next + 1));
  }

  /** Comparing two positions of the route is comparing their places. */
  lemma {:induction false} CompareMeaning(route: Route, mode: Mode, a: Position, b: Position)
    requires SameKind(route, mode) && Placed(route, a) && Placed(route, b)
    ensures Compare(Some(mode), a, b) == Ok(CompareNumbers(At(route, a), At(route, b)))
  {
    ComparisonIsRankOrder(mode, route.prefix, a, b);
  }

  lemma {:induction false} IdBehindItself(route: Route, src: Source, i: nat, rank: nat)
    requires i < |src.log| && At(route, src.log[i].position) <= rank
    ensures AllBehind(route, src, {src.log[i].id}, rank)
  {
  }

  lemma {:induction false} RaiseBehind(route: Route, src: Source, gtids: Gtids, r: nat, s: nat)
    requires AllBehind(route, src, gtids, r) && r <= s
    ensures AllBehind(route, src, gtids, s)
  {
    BehindGrows(route, src, src.(end := src.end), gtids, r, s);
  }

  lemma {:induction false} ObservedWriter(route: Route, src: Source, d: Durable, w: Writer, i: nat, r: Writer)
    requires GoodSource(route, src) && GoodWriter(route, src, d, w) && w.checkpoint.Some? && i < |src.log|
    requires
      var txn := src.log[i];
      Observe(route.server, w, txn.changes == [], route.owner.source, txn.id, txn.cursor) == Ok(r)
    ensures GoodWriter(route, src, d, r)
    ensures src.log[i].changes == [] && r.observedPosition == Some(src.log[i].position) && r.checkpoint == w.checkpoint
  {
    var txn := src.log[i];
    var rank := At(route, txn.position);
    assert GoodTxn(route, txn);
    IdBehindItself(route, src, i, rank);
    if w.observedPosition.Some? {
      CompareMeaning(route, w.checkpoint.value.mode, txn.position, w.observedPosition.value);
      RaiseBehind(route, src, Elements(w.observedGtids), At(route, w.observedPosition.value), rank);
    }
  }

  lemma {:induction false} ObservedMissesNothing(route: Route, src: Source, d: Durable, start: Start, next: nat)
    requires GoodLog(route, src) && GoodStream(route, src, d, start, next)
    requires next < |src.log| && src.log[next].changes == []
    ensures NothingMissed(route, src, d, src.log[next].position)
  {
  }

  lemma {:induction false} ObservedWorker(route: Route, src: Source, d: Durable, w: Worker, r: Writer)
    requires GoodSource(route, src) && GoodWorker(route, src, d, w) && w.start.Some? && w.next < |src.log|
    requires
      var txn := src.log[w.next];
      Observe(route.server, w.writer, txn.changes == [], route.owner.source, txn.id, txn.cursor) == Ok(r)
    ensures GoodWorker(route, src, d, w.(writer := r, next := w.next + 1))
  {
    ObservedWriter(route, src, d, w.writer, w.next, r);
    ObservedMissesNothing(route, src, d, w.start.value, w.next);
    PassObserved(route, src, d, w, r);
  }

  lemma {:induction false} PassObserved(route: Route, src: Source, d: Durable, w: Worker, r: Writer)
    requires |src.states| == |src.log| + 1 && GoodWorker(route, src, d, w) && w.start.Some? && w.next < |src.log|
    requires src.log[w.next].changes == [] && GoodWriter(route, src, d, r) && r.checkpoint == w.writer.checkpoint
    requires r.observedPosition.Some? && NothingMissed(route, src, d, r.observedPosition.value)
    ensures GoodWorker(route, src, d, w.(writer := r, next := w.next + 1))
  {
  }

  lemma {:induction false} ObserveKeeps(route: Route, s: State, a: Action, t: State)
    requires Inv(route, s) && a.ObserveNext? && Delivers(s, a.k) && Observes(route, s, a, t)
    ensures Inv(route, t)
  {
    if t != s {
      var w, txn := s.workers[a.k], s.source.log[s.workers[a.k].next];
      var r := Observe(route.server, w.writer, txn.changes == [], route.owner.source, txn.id, txn.cursor).value;
      ObservedWorker(route, s.source, s.sink.durable, w, r);
      WorkerKeeps(route, s, a.k, w.(writer := r, next := w.next + 1));
    }
  }

  // ---------------------------------------------------------------- applying

  /** The facts a transaction must meet before it is written. */
  lemma {:induction false} WriteMeaning(route: Route, src: Source, d: Durable, w: Writer, i: nat, a: Attempt,
                                        next: Durable)
    requires GoodLog(route, src) && GoodWriter(route, src, d, w) && i < |src.log| && AttemptFor(route, src.log[i], a)
    requires Decide(route.server, w, d, a) == Ok(Write(next))
    ensures w.checkpoint.Some? && d.row == w.checkpoint && d.row.value.phase == Incremental
    ensures
      var cp, txn := d.row.value, src.log[i];
      var gtids := NextGtids(route.server, w, cp, txn.id);
      && At(route, cp.position) < At(route, txn.position)
      && (w.observedPosition.Some? ==> At(route, w.observedPosition.value) <= At(route, txn.position))
      && gtids.Ok?
      && next.row == Some(NextCheckpoint(cp, txn.id, txn.position, gtids.value, |Statements(a.plan)|))
      && Execution(route.server, d.tables, a.plan) == Ok(next.tables)
  {
    var cp, txn := d.row.value, src.log[i];
    assert GoodTxn(route, txn);
    CompareMeaning(route, cp.mode, txn.position, cp.position);
    if w.observedPosition.Some? {
      CompareMeaning(route, cp.mode, txn.position, w.observedPosition.value);
    }
  }

  lemma {:induction false} AppliedGtids(route: Route, src: Source, w: Writer, cp: Checkpoint, i: nat,
                                        gtids: Option<Gtids>)
    requires GoodLog(route, src) && GoodRow(route, src, cp) && i < |src.log|
    requires NextGtids(route.server, w, cp, src.log[i].id) == Ok(gtids)
    requires At(route, cp.position) <= At(route, src.log[i].position)
    requires w.observedGtids.Some? ==>
               && w.observedPosition.Some?
               && At(route, w.observedPosition.value) <= At(route, src.log[i].position)
               && AllBehind(route, src, w.observedGtids.value, At(route, w.observedPosition.value))
    ensures AllBehind(route, src, Elements(gtids), At(route, src.log[i].position))
    ensures gtids.Some? <==> cp.mode == Gtid
    ensures Elements(cp.gtids) <= Elements(gtids) && (cp.mode == Gtid ==> src.log[i].id in Elements(gtids))
  {
    var rank := At(route, src.log[i].position);
    assert GoodTxn(route, src.log[i]);
    IdBehindItself(route, src, i, rank);
    RaiseBehind(route, src, Elements(cp.gtids), At(route, cp.position), rank);
    if w.observedGtids.Some? {
      RaiseBehind(route, src, w.observedGtids.value, At(route, w.observedPosition.value), rank);
    }
  }

  /** Everything between the durable position and the transaction was filtered out of the route. */
  ghost predicate OnlyFilteredBetween(route: Route, src: Source, p: Position, i: nat)
    requires i <= |src.log|
  {
    && Cut(route, src.log, At(route, p)) <= i
    && forall j :: Cut(route, src.log, At(route, p)) <= j < i ==> src.log[j].changes == []
  }

  lemma {:induction false} StreamGap(route: Route, src: Source, d: Durable, start: Start, next: nat, i: nat)
    requires GoodLog(route, src) && GoodStream(route, src, d, start, next) && i <= next && i < |src.log|
    requires At(route, d.row.value.position) < At(route, src.log[i].position)
    ensures OnlyFilteredBetween(route, src, d.row.value.position, i)
  {
    CutMeaning(route, src.log, At(route, d.row.value.position));
  }

  lemma {:induction false} ExecutionRuns(server: Server, tables: Tables, plan: seq<Statement>, next: Tables)
    requires Execution(server, tables, Some(plan)) == Ok(next)
    ensures Run(server.schema, tables, plan) == Ok(next)
  {
  }

  /** Running the plan of a transaction takes the sink from the tables before it to those after it. */
  lemma {:induction false} PlannedTables(route: Route, before: Tables, t: Txn, after: Tables, a: Attempt, next: Tables)
    requires KeyedTables(route.server.schema, before) && LoggedAll(route.server.schema, before, t.changes, after)
    requires AttemptFor(route, t, a)
    requires Execution(route.server, ProjectAll(route.server.schema, before), a.plan) == Ok(next)
    ensures next == ProjectAll(route.server.schema, after)
  {
    if a.plan.Some? {
      TransactionIsSimulated(route.server.schema, before, t.changes, after);
      ExecutionRuns(route.server, ProjectAll(route.server.schema, before), a.plan.value, next);
    }
  }

  lemma {:induction false} ProjectedKeys(route: Route, src: Source, p: Position)
    requires GoodSource(route, src)
    ensures ProjectAll(route.server.schema, TablesAt(route, src, p)).Keys == route.server.schema.Keys
  {
    KeyedAt(route, src, Cut(route, src.log, At(route, p)));
  }

  lemma {:induction false} AppliedTables(route: Route, src: Source, p: Position, tables: Tables, i: nat,
                                         a: Attempt, next: Tables)
    requires GoodSource(route, src) && i < |src.log| && OnlyFilteredBetween(route, src, p, i)
    requires AttemptFor(route, src.log[i], a) && Execution(route.server, tables, a.plan) == Ok(next)
    requires tables == ProjectAll(route.server.schema, TablesAt(route, src, p))
    ensures next == ProjectAll(route.server.schema, TablesAt(route, src, src.log[i].position))
  {
    FilteredGap(route, src, Cut(route, src.log, At(route, p)), i);
    CutAt(route, src.log, i);
    assert AppliesAt(route, src, i);
    PlannedTables(route, src.states[i], src.log[i], src.states[i + 1], a, next);
  }

  lemma {:induction false} PlanSize(route: Route, t: Txn, a: Attempt)
    requires AttemptFor(route, t, a)
    ensures |Statements(a.plan)| == |t.changes|
  {
    if a.plan.Some? {
      TraverseLength(PlanChange, t.changes);
    }
  }

  lemma {:induction false} NextSums(log: seq<Txn>, commits: seq<nat>, i: nat)
    requires i < |log| && forall k :: 0 <= k < |commits| ==> commits[k] < |log|
    ensures SumRows(log, commits + [i]) == SumRows(log, commits) + |log[i].changes|
    ensures CountWithRows(log, commits + [i]) == CountWithRows(log, commits) + (if |log[i].changes| > 0 then 1 else 0)
  {
    var next := commits + [i];
    assert next[..|next| - 1] == commits;
  }

  lemma {:induction false} NextCommits(src: Source, ledger: Ledger, i: nat)
    requires InLog(src, ledger) && Increasing(ledger.commits) && Last(ledger.base, ledger.commits) <= i < |src.log|
    requires forall j :: ledger.base <= j < Last(ledger.base, ledger.commits) && src.log[j].changes != [] ==>
               j in ledger.commits
    requires forall j :: Last(ledger.base, ledger.commits) <= j < i ==> src.log[j].changes == []
    ensures
      var next := ledger.(commits := ledger.commits + [i]);
      && InLog(src, next) && Increasing(next.commits) && Last(next.base, next.commits) == i + 1
      && forall j :: next.base <= j < i + 1 && src.log[j].changes != [] ==> j in next.commits
  {
  }

  lemma {:induction false} AppliedLedger(route: Route, src: Source, cp: Checkpoint, ledger: Ledger, i: nat,
                                         next: Checkpoint)
    requires GoodLog(route, src) && GoodLedger(route, src, cp, ledger) && i < |src.log|
    requires OnlyFilteredBetween(route, src, cp.position, i)
    requires exists gtids ::
               && next == NextCheckpoint(cp, src.log[i].id, src.log[i].position, gtids, |src.log[i].changes|)
               && Elements(cp.gtids) <= Elements(gtids) && (cp.mode == Gtid ==> src.log[i].id in Elements(gtids))
    ensures GoodLedger(route, src, next, ledger.(commits := ledger.commits + [i]))
  {
    CutAt(route, src.log, i);
    NextSums(src.log, ledger.commits, i);
    NextCommits(src, ledger, i);
  }

  lemma {:induction false} AppliedRow(route: Route, src: Source, d: Durable, w: Writer, i: nat, a: Attempt,
                                      next: Durable)
    requires GoodLog(route, src) && GoodWriter(route, src, d, w) && i < |src.log| && AttemptFor(route, src.log[i], a)
    requires Decide(route.server, w, d, a) == Ok(Write(next))
    ensures Follows(route, d, next) && GoodRow(route, src, next.row.value) && next.row.value.phase == Incremental
    ensures Elements(d.row.value.gtids) <= Elements(next.row.value.gtids)
    ensures d.row.value.mode == Gtid ==> src.log[i].id in Elements(next.row.value.gtids)
  {
    WriteMeaning(route, src, d, w, i, a, next);
    AppliedGtids(route, src, w, d.row.value, i, next.row.value.gtids);
    assert GoodTxn(route, src.log[i]);
  }

  lemma {:induction false} AppliedDurable(route: Route, s: State, w: Worker, i: nat, a: Attempt, next: Durable)
    requires Inv(route, s) && GoodWorker(route, s.source, s.sink.durable, w) && w.start.Some?
    requires i <= w.next && i < |s.source.log| && AttemptFor(route, s.source.log[i], a)
    requires Decide(route.server, w.writer, s.sink.durable, a) == Ok(Write(next))
    ensures GoodDurable(route, s.source, next, s.ledger.(commits := s.ledger.commits + [i]))
    ensures Follows(route, s.sink.durable, next)
  {
    var src, d := s.source, s.sink.durable;
    AppliedRow(route, src, d, w.writer, i, a, next);
    WriteMeaning(route, src, d, w.writer, i, a, next);
    StreamGap(route, src, d, w.start.value, w.next, i);
    AppliedRest(route, src, d, s.ledger, i, a, next);
  }

  lemma {:induction false} AppliedRest(route: Route, src: Source, d: Durable, ledger: Ledger, i: nat,
                                       a: Attempt, next: Durable)
    requires GoodSource(route, src) && GoodDurable(route, src, d, ledger) && i < |src.log|
    requires AttemptFor(route, src.log[i], a) && Execution(route.server, d.tables, a.plan) == Ok(next.tables)
    requires d.row.Some? && d.row.value.phase == Incremental
    requires OnlyFilteredBetween(route, src, d.row.value.position, i)
    requires next.row.Some? && exists gtids ::
               && next.row.value
                  == NextCheckpoint(d.row.value, src.log[i].id, src.log[i].position, gtids, |Statements(a.plan)|)
               && Elements(d.row.value.gtids) <= Elements(gtids)
               && (d.row.value.mode == Gtid ==> src.log[i].id in Elements(gtids))
    ensures next.tables == ProjectAll(route.server.schema, TablesAt(route, src, src.log[i].position))
    ensures next.tables.Keys == route.server.schema.Keys
    ensures GoodLedger(route, src, next.row.value, ledger.(commits := ledger.commits + [i]))
  {
    PlanSize(route, src.log[i], a);
    AppliedTables(route, src, d.row.value.position, d.tables, i, a, next.tables);
    ProjectedKeys(route, src, src.log[i].position);
    AppliedLedger(route, src, d.row.value, ledger, i, next.row.value);
  }

  lemma {:induction false} CoveredDecision(server: Server, w: Writer, d: Durable, a: Attempt, p: Position)
    requires Decide(server, w, d, a) == Ok(AlreadyApplied) && FilePosition(a.cursor) == Ok(p)
    ensures d.row.Some? && d.row == w.checkpoint && Covered(server, d.row.value, a.id, p) == Ok(true)
  {
  }

  /** A transaction the writer calls applied lies behind the durable position. */
  lemma {:induction false} CoveredIsBehind(route: Route, src: Source, d: Durable, w: Writer, i: nat, a: Attempt)
    requires GoodLog(route, src) && GoodWriter(route, src, d, w) && i < |src.log| && AttemptFor(route, src.log[i], a)
    requires Decide(route.server, w, d, a) == Ok(AlreadyApplied)
    ensures d.row.Some? && At(route, src.log[i].position) <= At(route, d.row.value.position)
  {
    var cp, txn := d.row.value, src.log[i];
    assert GoodTxn(route, txn);
    CoveredDecision(route.server, w, d, a, txn.position);
    CompareMeaning(route, cp.mode, txn.position, cp.position);
    if cp.mode == Gtid {
      assert txn.id in {txn.id};
      assert Behind(route, src, txn.id, At(route, cp.position));
      BehindMeaning(route, src, txn.id, At(route, cp.position), i);
    }
  }

  /** The effect of `Apply` on the writer and the sink, by its decision. */
  ghost predicate ApplyMeans(server: Server, w: Writer, s: Sink, a: Attempt, acknowledged: bool,
                             o: Outcome<ApplyResult>)
  {
    if s.pending.None? && Decide(server, w, s.durable, a).Ok? && Decide(server, w, s.durable, a).value.Write? then
      var next := Decide(server, w, s.durable, a).value.next;
      && o.sink == Commit(s, next, acknowledged)
      && o.writer == (if acknowledged then Writer(w.owner, next.row, None, None) else w)
      && o.result.Ok? == acknowledged
    else
      && o.sink == s && o.writer == w
      && (o.result.Ok? ==> Decide(server, w, s.durable, a) == Ok(AlreadyApplied))
  }

  lemma {:induction false} ApplyEffect(server: Server, w: Writer, s: Sink, a: Attempt, acknowledged: bool)
    ensures ApplyMeans(server, w, s, a, acknowledged, Apply(server, w, s, a, acknowledged))
  {
  }

  lemma {:induction false} PassNext(route: Route, src: Source, d: Durable, w: Worker)
    requires GoodLog(route, src) && GoodWorker(route, src, d, w) && w.start.Some? && w.next < |src.log|
    requires At(route, src.log[w.next].position) <= At(route, d.row.value.position)
    ensures GoodWorker(route, src, d, w.(next := w.next + 1))
  {
  }

  lemma {:induction false} AcknowledgedWorker(route: Route, src: Source, d: Durable, w: Worker, i: nat, next: Durable,
                                              ledger: Ledger)
    requires GoodLog(route, src) && GoodWorker(route, src, d, w) && w.start.Some? && i < |src.log| && i <= w.next
    requires w.writer.checkpoint.Some? && w.writer.checkpoint.value.phase == Incremental
    requires GoodDurable(route, src, next, ledger) && Follows(route, d, next)
    requires next.row.value.position == src.log[i].position
    ensures
      var writer := Writer(w.writer.owner, next.row, None, None);
      var worker := w.(writer := writer, next := if i == w.next then i + 1 else w.next);
      GoodWorker(route, src, next, worker)
  {
    var writer := Writer(w.writer.owner, next.row, None, None);
    AdoptRow(route, src, d, next, ledger, w, writer, None);
    if i == w.next {
      PassNext(route, src, next, w.(writer := writer));
    }
  }

  /** Nothing happened, and a result means the transaction lies behind the durable position. */
  ghost predicate LeavesAll(route: Route, s: State, w: Worker, i: nat, o: Outcome<ApplyResult>)
    requires i < |s.source.log|
  {
    && o.sink == s.sink && o.writer == w.writer
    && (o.result.Ok? ==>
          && s.sink.durable.row.Some?
          && At(route, s.source.log[i].position) <= At(route, s.sink.durable.row.value.position))
  }

  /** The transaction was written, and the writer knows if it was acknowledged. */
  ghost predicate WritesNext(route: Route, s: State, w: Worker, i: nat, acknowledged: bool, o: Outcome<ApplyResult>,
                             next: Durable)
    requires i < |s.source.log| && |s.source.states| == |s.source.log| + 1
  {
    && s.sink.pending.None? && w.writer.checkpoint.Some? && w.writer.checkpoint.value.phase == Incremental
    && GoodDurable(route, s.source, next, s.ledger.(commits := s.ledger.commits + [i]))
    && Follows(route, s.sink.durable, next) && next.row.value.position == s.source.log[i].position
    && o.sink == Commit(s.sink, next, acknowledged) && o.result.Ok? == acknowledged
    && o.writer == (if acknowledged then Writer(w.writer.owner, next.row, None, None) else w.writer)
  }

  /** `Apply` leaves everything, or writes the transaction's effect on top of everything before it. */
  lemma {:induction false} ApplyMeaning(route: Route, s: State, w: Worker, i: nat, a: Attempt, acknowledged: bool)
    requires Inv(route, s) && GoodWorker(route, s.source, s.sink.durable, w) && w.start.Some?
    requires i <= w.next && i < |s.source.log| && AttemptFor(route, s.source.log[i], a)
    ensures
      var o := Apply(route.server, w.writer, s.sink, a, acknowledged);
      LeavesAll(route, s, w, i, o) || exists next :: WritesNext(route, s, w, i, acknowledged, o, next)
  {
    var o := Apply(route.server, w.writer, s.sink, a, acknowledged);
    ApplyEffect(route.server, w.writer, s.sink, a, acknowledged);
    var decision := Decide(route.server, w.writer, s.sink.durable, a);
    if s.sink.pending.None? && decision.Ok? && decision.value.Write? {
      var next := decision.value.next;
      AppliedDurable(route, s, w, i, a, next);
      WriteMeaning(route, s.source, s.sink.durable, w.writer, i, a, next);
      assert WritesNext(route, s, w, i, acknowledged, o, next);
    } else if o.result.Ok? {
      CoveredIsBehind(route, s.source, s.sink.durable, w.writer, i, a);
    }
  }

  lemma {:induction false} AppliedWorker(route: Route, s: State, w: Worker, i: nat, acknowledged: bool,
                                         o: Outcome<ApplyResult>)
    requires Inv(route, s) && GoodWorker(route, s.source, s.sink.durable, w) && w.start.Some?
    requires i <= w.next && i < |s.source.log|
    requires LeavesAll(route, s, w, i, o) || exists next :: WritesNext(route, s, w, i, acknowledged, o, next)
    ensures
      var next := if o.result.Ok? && i == w.next then w.next + 1 else w.next;
      GoodWorker(route, s.source, o.sink.durable, w.(writer := o.writer, next := next))
    ensures Writes(route, s, o.sink, s.ledger.(commits := s.ledger.commits + [i]))
  {
    var ledger := s.ledger.(commits := s.ledger.commits + [i]);
    if next :| WritesNext(route, s, w, i, acknowledged, o, next) {
      Wrote(route, s, next, ledger, acknowledged);
      if acknowledged {
        AcknowledgedWorker(route, s.source, s.sink.durable, w, i, next, ledger);
      }
    } else if o.result.Ok? && i == w.next {
      PassNext(route, s.source, s.sink.durable, w);
    }
  }

  lemma {:induction false} OutcomeKeeps(route: Route, s: State, k: nat, i: nat, acknowledged: bool,
                                        o: Outcome<ApplyResult>,
                                        t: State)
    requires Inv(route, s) && Delivers(s, k) && i <= s.workers[k].next
    requires
      || LeavesAll(route, s, s.workers[k], i, o)
      || exists next :: WritesNext(route, s, s.workers[k], i, acknowledged, o, next)
    requires t == AfterApply(s, k, i, o)
    ensures Inv(route, t)
  {
    var w := s.workers[k];
    AppliedWorker(route, s, w, i, acknowledged, o);
    var next := if o.result.Ok? && i == w.next then w.next + 1 else w.next;
    var ledger := s.ledger.(commits := s.ledger.commits + [i]);
    AfterKeeps(route, s, k, w.(writer := o.writer, next := next), o.sink, ledger, t);
  }

  lemma {:induction false} ApplyKeeps(route: Route, s: State, a: Action, attempt: Attempt, t: State)
    requires Inv(route, s) && a.ApplyAt? && Delivers(s, a.k) && a.i <= s.workers[a.k].next
    requires AppliesAttempt(route, s, a, attempt, t)
    ensures Inv(route, t)
  {
    var w := s.workers[a.k];
    ApplyMeaning(route, s, w, a.i, attempt, a.acknowledged);
    OutcomeKeeps(route, s, a.k, a.i, a.acknowledged, Apply(route.server, w.writer, s.sink, attempt, a.acknowledged), t);
  }

  // ---------------------------------------------------------------- unknown commits

  /** A transaction that the row proves to be applied lies behind the durable position. */
  lemma {:induction false} ResolvedIsBehind(route: Route, src: Source, cp: Checkpoint, ledger: Ledger, i: nat)
    requires GoodLog(route, src) && GoodRow(route, src, cp) && GoodLedger(route, src, cp, ledger) && i < |src.log|
    requires ResolveRow(route.server, cp, src.log[i].id, src.log[i].position) == Ok(Applied)
    ensures At(route, src.log[i].position) <= At(route, cp.position)
  {
    var txn := src.log[i];
    assert GoodTxn(route, txn);
    if cp.last == Some(txn.id) {
      assert ledger.commits[|ledger.commits| - 1] == i;
    } else {
      CompareMeaning(route, cp.mode, txn.position, cp.position);
      if cp.mode == Gtid && txn.id in Elements(cp.gtids) {
        BehindMeaning(route, src, txn.id, At(route, cp.position), i);
      }
    }
  }

  lemma {:induction false} ResolveReads(route: Route, src: Source, w: Writer, s: Sink, i: nat, r: Resolution)
    requires GoodLog(route, src) && i < |src.log|
    requires Resolve(route.server, w, s, route.owner.source, src.log[i].id, src.log[i].cursor) == Ok(r)
    ensures s.pending.None? && s.durable.row.Some?
    ensures ResolveRow(route.server, s.durable.row.value, src.log[i].id, src.log[i].position) == Ok(r)
  {
    assert GoodTxn(route, src.log[i]);
  }

  lemma {:induction false} ResolveKeeps(route: Route, s: State, a: Action, t: State)
    requires Inv(route, s) && a.ResolveNext? && Delivers(s, a.k) && Resolves(route, s, a, t)
    ensures Inv(route, t)
  {
    if t != s {
      var w, cp := s.workers[a.k], s.sink.durable.row.value;
      ResolveReads(route, s.source, w.writer, s.sink, w.next, Applied);
      ResolvedIsBehind(route, s.source, cp, s.ledger, w.next);
      PassNext(route, s.source, s.sink.durable, w);
      WorkerKeeps(route, s, a.k, w.(next := w.next + 1));
    }
  }

  // ---------------------------------------------------------------- all actions, all runs

  lemma {:induction false} ActionKeeps(route: Route, s: State, a: Action, t: State)
    requires GoodRoute(route) && Inv(route, s) && Takes(route, s, a, t)
    ensures Inv(route, t)
  {
    match a
    case SourceCommit(_, _, _) => SourceKeeps(route, s, a, t);
    case SourceRotate(_) => SourceKeeps(route, s, a, t);
    case InitializeAt(_, _, _, _, _) => InitializeKeeps(route, s, a, t);
    case Prepare(_, _, _) => PrepareKeeps(route, s, a, t);
    case Copy(_, _, _, _) => CopyKeeps(route, s, a, t);
    case OpenStream(_) => OpenStreamKeeps(route, s, a, t);
    case SkipFiltered(_) => SkipKeeps(route, s, a, t);
    case ObserveNext(_) => ObserveKeeps(route, s, a, t);
    case ApplyAt(_, _, _) =>
      var attempt :| AppliesAttempt(route, s, a, attempt, t);
      ApplyKeeps(route, s, a, attempt, t);
    case ResolveNext(_) => ResolveKeeps(route, s, a, t);
    case Finish(_) => FinishKeeps(route, s, a, t);
    case _ => ConnectKeeps(route, s, a, t);
  }

  /** Every state of every run meets the invariant. */
  lemma {:induction false} RunKeeps(route: Route, run: seq<State>, actions: seq<Action>, n: nat)
    requires GoodRoute(route) && IsRun(route, run, actions) && n < |run|
    ensures Inv(route, run[n])
  {
    if n > 0 {
      RunKeeps(route, run, actions, n - 1);
      assert TakesAt(route, run, actions, n - 1);
      ActionKeeps(route, run[n - 1], actions[n - 1], run[n]);
    }
  }
}
