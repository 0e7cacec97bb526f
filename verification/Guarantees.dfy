/** What replication guarantees in every state of every run, and across any two states of one run. */
module Guarantees {
  import opened Outcomes
  import opened Cursor
  import opened Images
  import opened Rows
  import opened Simulation
  import opened Planning
  import opened Checkpoints
  import opened Copying
  import opened SourceLogs
  import opened Replication
  import opened Safety

  /** The durable row, once the task is incremental. */
  ghost predicate IsIncremental(s: State) {
    s.sink.durable.row.Some? && s.sink.durable.row.value.phase == Incremental
  }

  // ---------------------------------------------------------------- the sink's contents

  /**
   Incremental: the sink's tables equal the source's tables, less generated columns, at exactly the
   durable position. Before that, no business row of the task has been committed.
   */
  lemma {:induction false} SinkEqualsSource(route: Route, run: seq<State>, actions: seq<Action>, n: nat)
    requires GoodRoute(route) && IsRun(route, run, actions) && n < |run|
    ensures |run[n].source.states| == |run[n].source.log| + 1
    ensures
      var s := run[n];
      var row := s.sink.durable.row;
      if IsIncremental(s) then
        && At(route, row.value.position) <= s.source.end
        && s.sink.durable.tables == ProjectAll(route.server.schema, TablesAt(route, s.source, row.value.position))
      else s.sink.durable.tables == route.initial
  {
    RunKeeps(route, run, actions, n);
  }

  /**
   Exactly once, in log order: the committed transactions are increasing log indices from the boundary to
   the durable position, none with selected rows is missing, and revision and counters are their totals.
   */
  lemma {:induction false} ExactlyOnce(route: Route, run: seq<State>, actions: seq<Action>, n: nat)
    requires GoodRoute(route) && IsRun(route, run, actions) && n < |run| && IsIncremental(run[n])
    ensures
      var s := run[n];
      var cp, commits := s.sink.durable.row.value, s.ledger.commits;
      var applied := Cut(route, s.source.log, At(route, cp.position));
      && Increasing(commits)
      && (forall i :: 0 <= i < |commits| ==> s.ledger.base <= commits[i] < applied)
      && (forall j :: s.ledger.base <= j < applied && s.source.log[j].changes != [] ==> j in commits)
      && cp.revision == s.ledger.revision + |commits|
    ensures
      var s := run[n];
      var cp := s.sink.durable.row.value;
      && InLog(s.source, s.ledger)
      && cp.appliedRows == SumRows(s.source.log, s.ledger.commits)
      && cp.appliedTransactions == CountWithRows(s.source.log, s.ledger.commits)
  {
    RunKeeps(route, run, actions, n);
  }

  /** A copy that commits records as its row count exactly the rows of the view's tables. */
  lemma {:induction false} SnapshotRowsAreCounted(server: Server, w: Writer, d: Durable, view: Tables,
                                                  scope: seq<TableId>,
                                                  batches: seq<Result<Batch, ()>>, next: Durable)
    requires CarriesView(server.schema, view, scope, batches) && forall i :: 0 <= i < |scope| ==> scope[i] in view
    requires DecideCopy(server, w, d, scope, batches) == Ok(next)
    ensures next.row.Some? && next.row.value.phase == Incremental
    ensures next.row.value.snapshotRows == TotalRows(view, scope)
  {
    var end := CopyAll(server.schema, w.owner.source, scope, batches, Progress(0, 0, d.tables)).value;
    CopyEffect(server, w, d, scope, batches, next, end);
    CopyCountsView(server.schema, w.owner.source, view, scope, batches, d.tables, end);
  }

  // ---------------------------------------------------------------- progress between states

  lemma {:induction false} BoundaryFollows(route: Route, s: State, a: Action, t: State)
    requires GoodRoute(route) && Inv(route, s) && (a.InitializeAt? || a.Prepare?) && Takes(route, s, a, t)
    ensures t.sink.durable == s.sink.durable || Follows(route, s.sink.durable, t.sink.durable)
  {
    if t.sink != s.sink {
      if a.InitializeAt? {
        FreshDurable(route, s, a);
      } else {
        PrepareEffect(s.workers[a.k].writer, s.sink, a.view.boundary, a.acknowledged);
        MarkedDurable(route, s, a.view);
      }
    }
  }

  lemma {:induction false} CopyFollows(route: Route, s: State, a: Action, t: State)
    requires Inv(route, s) && a.Copy? && a.k < |s.workers| && Copies(route, s, a, t)
    ensures t.sink.durable == s.sink.durable || Follows(route, s.sink.durable, t.sink.durable)
  {
    if t.sink != s.sink {
      var w := s.workers[a.k];
      CopiedDurable(route, s, a, w, DecideCopy(route.server, w.writer, s.sink.durable, a.scope, a.batches).value);
    }
  }

  lemma {:induction false} ApplyFollows(route: Route, s: State, a: Action, attempt: Attempt, t: State)
    requires Inv(route, s) && a.ApplyAt? && Delivers(s, a.k) && a.i <= s.workers[a.k].next
    requires AppliesAttempt(route, s, a, attempt, t)
    ensures t.sink.durable == s.sink.durable || Follows(route, s.sink.durable, t.sink.durable)
  {
    ApplyMeaning(route, s, s.workers[a.k], a.i, attempt, a.acknowledged);
  }

  /** Each action leaves the durable state, or moves it on by exactly one revision and a strictly later position. */
  lemma {:induction false} ActionFollows(route: Route, s: State, a: Action, t: State)
    requires GoodRoute(route) && Inv(route, s) && Takes(route, s, a, t)
    ensures t.sink.durable == s.sink.durable || Follows(route, s.sink.durable, t.sink.durable)
  {
    match a
    case InitializeAt(_, _, _, _, _) => BoundaryFollows(route, s, a, t);
    case Prepare(_, _, _) => BoundaryFollows(route, s, a, t);
    case Copy(_, _, _, _) => CopyFollows(route, s, a, t);
    case ApplyAt(_, _, _) =>
      var attempt :| AppliesAttempt(route, s, a, attempt, t);
      ApplyFollows(route, s, a, attempt, t);
    case _ =>
  }

  lemma {:induction false} LaterIsTransitive(route: Route, d: Durable, e: Durable, f: Durable)
    requires Later(route, d, e) && Later(route, e, f)
    ensures Later(route, d, f)
  {
  }

  lemma {:induction false} RunFollows(route: Route, run: seq<State>, actions: seq<Action>, n: nat)
    requires GoodRoute(route) && IsRun(route, run, actions) && n < |actions|
    ensures
      var d, e := run[n].sink.durable, run[n + 1].sink.durable;
      e == d || Follows(route, d, e)
  {
    RunKeeps(route, run, actions, n);
    assert TakesAt(route, run, actions, n);
    ActionFollows(route, run[n], actions[n], run[n + 1]);
  }

  lemma {:induction false} LaterStep(route: Route, d: Durable, e: Durable, f: Durable)
    requires e == d || Later(route, d, e)
    requires f == e || Follows(route, e, f)
    ensures f == d || Later(route, d, f)
  {
    if e != d && f != e {
      LaterIsTransitive(route, d, e, f);
    }
  }

  /** Between any two states of a run: the revision, the position and the recorded GTIDs only grow. */
  lemma {:induction false} RunProgress(route: Route, run: seq<State>, actions: seq<Action>, m: nat, n: nat)
    requires GoodRoute(route) && IsRun(route, run, actions) && m <= n < |run|
    ensures
      var d, e := run[m].sink.durable, run[n].sink.durable;
      e == d || Later(route, d, e)
    decreases n
  {
    if m < n {
      RunProgress(route, run, actions, m, n - 1);
      RunFollows(route, run, actions, n - 1);
      LaterStep(route, run[m].sink.durable, run[n - 1].sink.durable, run[n].sink.durable);
    }
  }

  lemma {:induction false} ActionGrowsLog(route: Route, s: State, a: Action, t: State)
    requires |s.source.states| == |s.source.log| + 1 && Takes(route, s, a, t)
    ensures s.source.log <= t.source.log
  {
  }

  lemma {:induction false} LogGrows(route: Route, run: seq<State>, actions: seq<Action>, m: nat, n: nat)
    requires IsRun(route, run, actions) && m <= n < |run|
    ensures run[m].source.log <= run[n].source.log
    decreases n
  {
    if m < n {
      LogGrows(route, run, actions, m, n - 1);
      assert TakesAt(route, run, actions, n - 1);
      ActionGrowsLog(route, run[n - 1], actions[n - 1], run[n]);
    }
  }

  // ---------------------------------------------------------------- GTIDs

  /** The durable GTID set names no transaction past the durable position. */
  lemma {:induction false} NeverRecordedEarly(route: Route, run: seq<State>, actions: seq<Action>, n: nat, i: nat)
    requires GoodRoute(route) && IsRun(route, run, actions) && n < |run| && i < |run[n].source.log|
    requires run[n].sink.durable.row.Some?
    requires run[n].source.log[i].id in Elements(run[n].sink.durable.row.value.gtids)
    ensures At(route, run[n].source.log[i].position) <= At(route, run[n].sink.durable.row.value.position)
  {
    RunKeeps(route, run, actions, n);
    var src, cp := run[n].source, run[n].sink.durable.row.value;
    BehindMeaning(route, src, src.log[i].id, At(route, cp.position), i);
  }

  /** Observing writes nothing; the next acknowledged commit records what was observed, with its own id. */
  lemma {:induction false} ObservedWithCommit(server: Server, w: Writer, s: Sink, a: Attempt)
    requires w.checkpoint.Some? && w.checkpoint.value.mode == Gtid
    requires Apply(server, w, s, a, true).result.Ok? && !Apply(server, w, s, a, true).result.value.alreadyApplied
    ensures
      var o := Apply(server, w, s, a, true);
      && server.canonical(a.id).Some? && o.writer.checkpoint.Some? && o.sink.durable.row == o.writer.checkpoint
      && Elements(o.writer.checkpoint.value.gtids)
         == Elements(w.checkpoint.value.gtids) + Elements(w.observedGtids) + server.canonical(a.id).value
      && o.writer.observedGtids.None? && o.writer.observedPosition.None?
      && (w.observedPosition.Some? ==>
            var order := Compare(Some(Gtid), o.writer.checkpoint.value.position, w.observedPosition.value);
            order.Ok? && order.value != Less)
  {
  }

  /**
   Ids enter the durable set only together with a commit that moves the durable position to, or past, their
   transactions: an id that is recorded in a later state of the run and not in an earlier one.
   */
  lemma {:induction false} RecordedWithProgress(route: Route, run: seq<State>, actions: seq<Action>, m: nat,
                                                n: nat, i: nat)
    requires GoodRoute(route) && IsRun(route, run, actions) && m <= n < |run| && i < |run[n].source.log|
    requires IsIncremental(run[m])
    requires run[n].sink.durable.row.Some? && run[n].source.log[i].id in Elements(run[n].sink.durable.row.value.gtids)
    requires run[n].source.log[i].id !in Elements(run[m].sink.durable.row.value.gtids)
    ensures
      var before, after := run[m].sink.durable.row.value, run[n].sink.durable.row.value;
      && At(route, before.position) < At(route, after.position)
      && At(route, run[n].source.log[i].position) <= At(route, after.position)
      && before.revision < after.revision
  {
    RunProgress(route, run, actions, m, n);
    NeverRecordedEarly(route, run, actions, n, i);
  }

  /**
   A worker that restarts from the durable row is never handed a committed transaction again, and is handed
   every transaction past the durable position, by position as by GTID.
   */
  lemma {:induction false} RestartSkipsApplied(route: Route, run: seq<State>, actions: seq<Action>, n: nat,
                                               start: Start)
    requires GoodRoute(route) && IsRun(route, run, actions) && n < |run| && IsIncremental(run[n])
    requires
      var cp := run[n].sink.durable.row.value;
      start == Start(cp.mode, cp.position, cp.gtids)
    ensures InLog(run[n].source, run[n].ledger)
    ensures
      var s := run[n];
      && (forall k :: 0 <= k < |s.ledger.commits| ==> Filtered(route, start, s.source.log[s.ledger.commits[k]]))
      && (forall i :: Cut(route, s.source.log, At(route, start.position)) <= i < |s.source.log| ==>
            !Filtered(route, start, s.source.log[i]))
  {
    RunKeeps(route, run, actions, n);
    RestartAt(route, run[n].source, run[n].sink.durable.row.value, run[n].ledger, start);
  }

  lemma {:induction false} RestartAt(route: Route, src: Source, cp: Checkpoint, ledger: Ledger, start: Start)
    requires GoodLog(route, src) && GoodRow(route, src, cp) && GoodLedger(route, src, cp, ledger)
    requires start == Start(cp.mode, cp.position, cp.gtids)
    ensures forall k :: 0 <= k < |ledger.commits| ==> Filtered(route, start, src.log[ledger.commits[k]])
    ensures forall i :: Cut(route, src.log, At(route, start.position)) <= i < |src.log| ==>
              !Filtered(route, start, src.log[i])
  {
    CutMeaning(route, src.log, At(route, cp.position));
    forall k | 0 <= k < |ledger.commits|
      ensures Filtered(route, start, src.log[ledger.commits[k]])
    {
      assert ledger.commits[k] < Last(ledger.base, ledger.commits);
    }
    forall i | Cut(route, src.log, At(route, start.position)) <= i < |src.log|
      ensures !Filtered(route, start, src.log[i])
    {
      if Filtered(route, start, src.log[i]) {
        FilteredIsBehind(route, src, start, i);
      }
    }
  }

  /**
   What a worker has observed becomes durable with its next commit, and only at or past it: after an
   acknowledged write in GTID mode every observed id is recorded, belongs to no transaction past the new
   durable position, and is forgotten by the writer.
   */
  lemma {:induction false} ObservedBecomesDurable(route: Route, run: seq<State>, actions: seq<Action>, n: nat)
    requires GoodRoute(route) && IsRun(route, run, actions) && n < |actions|
    requires actions[n].ApplyAt? && actions[n].acknowledged && run[n + 1].sink != run[n].sink
    ensures Delivers(run[n], actions[n].k) && actions[n].k < |run[n + 1].workers| && IsIncremental(run[n + 1])
    ensures
      var before, after := run[n].workers[actions[n].k].writer, run[n + 1].workers[actions[n].k].writer;
      var row := run[n + 1].sink.durable.row;
      && after.checkpoint == row && after.observedGtids.None? && after.observedPosition.None?
      && (row.value.mode == Gtid ==> Elements(before.observedGtids) <= Elements(row.value.gtids))
      && AllBehind(route, run[n].source, Elements(before.observedGtids), At(route, row.value.position))
      && (before.observedPosition.Some? ==> At(route, before.observedPosition.value) <= At(route, row.value.position))
  {
    RunKeeps(route, run, actions, n);
    assert TakesAt(route, run, actions, n);
    var attempt :| AppliesAttempt(route, run[n], actions[n], attempt, run[n + 1]);
    ObservedRecorded(route, run[n], actions[n], attempt, run[n + 1]);
  }

  lemma {:induction false} ObservedRecorded(route: Route, s: State, a: Action, attempt: Attempt, t: State)
    requires Inv(route, s) && a.ApplyAt? && Delivers(s, a.k) && a.i <= s.workers[a.k].next && a.acknowledged
    requires AppliesAttempt(route, s, a, attempt, t) && t.sink != s.sink
    ensures IsIncremental(t)
    ensures
      var before, after, row := s.workers[a.k].writer, t.workers[a.k].writer, t.sink.durable.row;
      && after.checkpoint == row && after.observedGtids.None? && after.observedPosition.None?
      && (row.value.mode == Gtid ==> Elements(before.observedGtids) <= Elements(row.value.gtids))
      && AllBehind(route, s.source, Elements(before.observedGtids), At(route, row.value.position))
      && (before.observedPosition.Some? ==> At(route, before.observedPosition.value) <= At(route, row.value.position))
  {
    var w := s.workers[a.k].writer;
    ApplyEffect(route.server, w, s.sink, attempt, true);
    var next := Decide(route.server, w, s.sink.durable, attempt).value.next;
    WriteMeaning(route, s.source, s.sink.durable, w, a.i, attempt, next);
    if w.observedPosition.Some? {
      var p := At(route, w.observedPosition.value);
      RaiseBehind(route, s.source, Elements(w.observedGtids), p, At(route, next.row.value.position));
    }
  }

  // ---------------------------------------------------------------- errors

  ghost predicate ErrorLeaves<T>(w: Writer, s: Sink, o: Outcome<T>) {
    o.result.Err? && o.result.error != CommitUnknown ==> o.writer == w && o.sink == s
  }

  /** An error other than an unknown commit leaves the writer and the sink as they were. */
  lemma {:induction false} ApplyErrorLeaves(server: Server, w: Writer, s: Sink, a: Attempt, acknowledged: bool)
    ensures ErrorLeaves(w, s, Apply(server, w, s, a, acknowledged))
  {
  }

  lemma {:induction false} BoundaryErrorLeaves(
      w: Writer, s: Sink, mode: Mode, p: Position, gtids: Option<Gtids>, b: Boundary, acknowledged: bool)
    ensures ErrorLeaves(w, s, Initialize(w, s, mode, p, gtids, acknowledged))
    ensures ErrorLeaves(w, s, PrepareSnapshot(w, s, b, acknowledged))
  {
  }

  lemma {:induction false} CopyErrorLeaves(
      server: Server, w: Writer, s: Sink, scope: seq<TableId>, batches: seq<Result<Batch, ()>>, acknowledged: bool)
    ensures ErrorLeaves(w, s, CopySnapshot(server, w, s, scope, batches, acknowledged))
  {
  }

  // ---------------------------------------------------------------- unknown commits

  /**
   With no commit pending, an incremental row answers for every logged transaction, and the answer is
   right: not applied exactly when the transaction lies past the durable position. The answer is withheld
   only for the transaction that ends exactly at the boundary, before anything was applied.
   */
  lemma {:induction false} ResolutionIsSound(route: Route, run: seq<State>, actions: seq<Action>, n: nat,
                                             w: Writer, i: nat)
    requires GoodRoute(route) && IsRun(route, run, actions) && n < |run| && i < |run[n].source.log|
    requires IsIncremental(run[n]) && run[n].sink.pending.None? && w.owner == route.owner
    ensures
      var s, txn := run[n], run[n].source.log[i];
      var applied := Cut(route, s.source.log, At(route, s.sink.durable.row.value.position));
      var r := Resolve(route.server, w, s.sink, route.owner.source, txn.id, txn.cursor);
      && r.Ok?
      && (r.value == NotApplied <==> applied <= i)
      && (r.value == Applied ==> i < applied)
      && (r.value == Unprovable ==> i + 1 == s.ledger.base)
      && (r.value == Unprovable <==>
            && s.ledger.commits == []
            && At(route, txn.position) == At(route, s.sink.durable.row.value.position)
            && txn.id !in Elements(s.sink.durable.row.value.gtids))
  {
    RunKeeps(route, run, actions, n);
    var src, cp := run[n].source, run[n].sink.durable.row.value;
    ResolveAnswers(route, src, cp, run[n].ledger, w, run[n].sink, i);
  }

  lemma {:induction false} ResolveToRow(route: Route, src: Source, cp: Checkpoint, w: Writer, sink: Sink, i: nat)
    requires GoodLog(route, src) && GoodRow(route, src, cp) && i < |src.log|
    requires sink.pending.None? && sink.durable.row == Some(cp) && w.owner == route.owner
    ensures Resolve(route.server, w, sink, route.owner.source, src.log[i].id, src.log[i].cursor)
            == ResolveRow(route.server, cp, src.log[i].id, src.log[i].position)
  {
    assert GoodTxn(route, src.log[i]);
    assert CheckBinding(cp, w.owner) == Ok(());
  }

  /** The answer by where the transaction lies. */
  lemma {:induction false} ResolveByPlace(route: Route, src: Source, cp: Checkpoint, i: nat)
    requires GoodLog(route, src) && GoodRow(route, src, cp) && i < |src.log| && cp.last != Some(src.log[i].id)
    ensures
      var txn := src.log[i];
      var r := ResolveRow(route.server, cp, txn.id, txn.position);
      && r.Ok?
      && (r.value == NotApplied <==> At(route, txn.position) > At(route, cp.position))
      && (r.value == Unprovable <==>
            At(route, txn.position) == At(route, cp.position) && txn.id !in Elements(cp.gtids))
  {
    var txn := src.log[i];
    assert GoodTxn(route, txn);
    CompareMeaning(route, cp.mode, txn.position, cp.position);
    assert {txn.id} <= Elements(cp.gtids) <==> txn.id in Elements(cp.gtids);
    if txn.id in Elements(cp.gtids) {
      BehindMeaning(route, src, txn.id, At(route, cp.position), i);
    }
  }

  lemma {:induction false} ResolveAnswers(route: Route, src: Source, cp: Checkpoint, ledger: Ledger, w: Writer,
                                          sink: Sink, i: nat)
    requires GoodLog(route, src) && GoodRow(route, src, cp) && GoodLedger(route, src, cp, ledger) && i < |src.log|
    requires sink.pending.None? && sink.durable.row == Some(cp) && w.owner == route.owner
    ensures
      var txn, applied := src.log[i], Cut(route, src.log, At(route, cp.position));
      var r := Resolve(route.server, w, sink, route.owner.source, txn.id, txn.cursor);
      && r.Ok?
      && (r.value == NotApplied <==> applied <= i)
      && (r.value == Applied ==> i < applied)
      && (r.value == Unprovable ==> i + 1 == ledger.base)
      && (r.value == Unprovable <==>
            && ledger.commits == [] && txn.id !in Elements(cp.gtids)
            && At(route, txn.position) == At(route, cp.position))
  {
    var txn := src.log[i];
    ResolveToRow(route, src, cp, w, sink, i);
    CutMeaning(route, src.log, At(route, cp.position));
    if cp.last == Some(txn.id) {
      ResolvedIsBehind(route, src, cp, ledger, i);
    } else {
      ResolveByPlace(route, src, cp, i);
      if At(route, txn.position) == At(route, cp.position) {
        CutAt(route, src.log, i);
      }
    }
  }

  /** A transaction that is written lies past the durable position of an incremental task. */
  lemma {:induction false} WrittenLiesAhead(route: Route, s: State, a: Action, t: State)
    requires GoodRoute(route) && Inv(route, s) && a.ApplyAt? && Takes(route, s, a, t) && t.sink != s.sink
    ensures IsIncremental(s) && a.i < |s.source.log|
    ensures At(route, s.sink.durable.row.value.position) < At(route, s.source.log[a.i].position)
  {
    var w := s.workers[a.k];
    var attempt :| AppliesAttempt(route, s, a, attempt, t);
    WrittenAttempt(route, s, a, attempt, t);
  }

  lemma {:induction false} WrittenAttempt(route: Route, s: State, a: Action, attempt: Attempt, t: State)
    requires Inv(route, s) && a.ApplyAt? && Delivers(s, a.k) && a.i <= s.workers[a.k].next
    requires AppliesAttempt(route, s, a, attempt, t) && t.sink != s.sink
    ensures IsIncremental(s)
    ensures At(route, s.sink.durable.row.value.position) < At(route, s.source.log[a.i].position)
  {
    ApplyMeaning(route, s, s.workers[a.k], a.i, attempt, a.acknowledged);
  }

  /** Once a writer has attempted a transaction, every later answer about it is definite. */
  lemma {:induction false} ResolutionIsDefinite(route: Route, run: seq<State>, actions: seq<Action>, m: nat,
                                                n: nat, w: Writer)
    requires GoodRoute(route) && IsRun(route, run, actions) && m < n < |run|
    requires actions[m].ApplyAt? && run[m + 1].sink != run[m].sink
    requires run[n].sink.pending.None? && w.owner == route.owner
    ensures IsIncremental(run[n]) && actions[m].i < |run[n].source.log|
    ensures
      var txn := run[n].source.log[actions[m].i];
      var r := Resolve(route.server, w, run[n].sink, route.owner.source, txn.id, txn.cursor);
      r == Ok(Applied) || r == Ok(NotApplied)
  {
    var i := actions[m].i;
    RunKeeps(route, run, actions, m);
    assert TakesAt(route, run, actions, m);
    WrittenLiesAhead(route, run[m], actions[m], run[m + 1]);
    RunProgress(route, run, actions, m, n);
    LogGrows(route, run, actions, m, n);
    DefiniteAt(route, run, actions, n, w, i, run[m].sink.durable);
  }

  lemma {:induction false} DefiniteAt(route: Route, run: seq<State>, actions: seq<Action>, n: nat, w: Writer,
                                      i: nat, d: Durable)
    requires GoodRoute(route) && IsRun(route, run, actions) && n < |run| && i < |run[n].source.log|
    requires run[n].sink.pending.None? && w.owner == route.owner
    requires d.row.Some? && d.row.value.phase == Incremental
    requires At(route, d.row.value.position) < At(route, run[n].source.log[i].position)
    requires run[n].sink.durable == d || Later(route, d, run[n].sink.durable)
    ensures IsIncremental(run[n])
    ensures
      var txn := run[n].source.log[i];
      var r := Resolve(route.server, w, run[n].sink, route.owner.source, txn.id, txn.cursor);
      r == Ok(Applied) || r == Ok(NotApplied)
  {
    ResolutionIsSound(route, run, actions, n, w, i);
    RunKeeps(route, run, actions, n);
  }

  /**
   A commit whose acknowledgement is lost: nothing is durable yet and the writer does not change. Once the
   server has settled it, asking tells which way, and the effects are durable exactly when it landed.
   */
  lemma {:induction false} UnknownCommitIsResolved(route: Route, run: seq<State>, actions: seq<Action>, m: nat,
                                                   w: Writer)
    requires GoodRoute(route) && IsRun(route, run, actions) && m + 1 < |actions| && w.owner == route.owner
    requires actions[m].ApplyAt? && !actions[m].acknowledged && run[m + 1].sink != run[m].sink && actions[m + 1].Finish?
    ensures Delivers(run[m], actions[m].k) && actions[m].i < |run[m].source.log|
    ensures run[m + 1].sink.durable == run[m].sink.durable && run[m + 1].workers == run[m].workers
    ensures
      var txn, s, landed := run[m].source.log[actions[m].i], run[m + 2], actions[m + 1].landed;
      && IsIncremental(s) && s.sink.pending.None?
      && Resolve(route.server, w, s.sink, route.owner.source, txn.id, txn.cursor)
         == Ok(if landed then Applied else NotApplied)
      && (if landed then s.sink.durable.row.value.position == txn.position else s.sink.durable == run[m].sink.durable)
  {
    RunKeeps(route, run, actions, m);
    assert TakesAt(route, run, actions, m) && TakesAt(route, run, actions, m + 1);
    var i := actions[m].i;
    var attempt :| AppliesAttempt(route, run[m], actions[m], attempt, run[m + 1]);
    UnknownWrite(route, run[m], actions[m], attempt, run[m + 1]);
    LogGrows(route, run, actions, m, m + 2);
    SettledAnswer(route, run, actions, m, w, actions[m + 1].landed);
  }

  lemma {:induction false} SettledAnswer(route: Route, run: seq<State>, actions: seq<Action>, m: nat,
                                         w: Writer, landed: bool)
    requires GoodRoute(route) && IsRun(route, run, actions) && m + 1 < |actions| && w.owner == route.owner
    requires actions[m].ApplyAt? && run[m + 1].sink != run[m].sink && IsIncremental(run[m + 2])
    requires run[m + 2].sink.pending.None? && actions[m].i < |run[m + 2].source.log|
    requires
      var position := run[m + 2].sink.durable.row.value.position;
      landed <==> At(route, run[m + 2].source.log[actions[m].i].position) <= At(route, position)
    ensures
      var txn := run[m + 2].source.log[actions[m].i];
      Resolve(route.server, w, run[m + 2].sink, route.owner.source, txn.id, txn.cursor)
      == Ok(if landed then Applied else NotApplied)
  {
    ResolutionIsDefinite(route, run, actions, m, m + 2, w);
    ResolutionIsSound(route, run, actions, m + 2, w, actions[m].i);
    RunKeeps(route, run, actions, m + 2);
    CutMeaning(route, run[m + 2].source.log, At(route, run[m + 2].sink.durable.row.value.position));
  }

  lemma {:induction false} UnknownWrite(route: Route, s: State, a: Action, attempt: Attempt, t: State)
    requires Inv(route, s) && a.ApplyAt? && Delivers(s, a.k) && a.i <= s.workers[a.k].next && !a.acknowledged
    requires AppliesAttempt(route, s, a, attempt, t) && t.sink != s.sink
    ensures t.source == s.source && t.workers == s.workers && t.sink.durable == s.sink.durable && IsIncremental(s)
    ensures At(route, s.sink.durable.row.value.position) < At(route, s.source.log[a.i].position)
    ensures t.sink.pending.Some? && t.sink.pending.value.row.Some?
    ensures
      var row := t.sink.pending.value.row.value;
      row.phase == Incremental && row.position == s.source.log[a.i].position
  {
    var w := s.workers[a.k];
    ApplyEffect(route.server, w.writer, s.sink, attempt, false);
    var next := Decide(route.server, w.writer, s.sink.durable, attempt).value.next;
    WriteMeaning(route, s.source, s.sink.durable, w.writer, a.i, attempt, next);
    assert s.workers[a.k := w] == s.workers;
  }

  // ---------------------------------------------------------------- progress

  /** What a caller can check about a planned transaction before applying it to a row that it lies past. */
  predicate Applicable(w: Writer, t: Txn) {
    && |t.id| <= 512 && Ascii(t.id) && w.checkpoint.Some?
    && w.checkpoint.value.revision < U64_MAX && (w.checkpoint.value.mode == Gtid ==> SingleGtid(t.id))
    && forall i :: 0 <= i < |t.changes| ==> !NamesControl(t.changes[i].table.schema)
  }

  function AttemptOf(route: Route, t: Txn, plan: seq<Statement>): Attempt {
    Attempt(route.owner.source, t.id, t.cursor, Some(plan))
  }

  /**
   Replication makes progress: the next transaction with selected rows that lies past the durable position,
   if it is valid, is planned and applied by a worker in step with the row, with no commit pending, exactly
   when every change can be planned and it is applicable. What the worker has observed never stands in the way.
   */
  lemma {:induction false} NextIsApplied(route: Route, run: seq<State>, actions: seq<Action>, n: nat, k: nat)
    requires GoodRoute(route) && IsRun(route, run, actions) && n < |run| && Delivers(run[n], k)
    requires IsIncremental(run[n]) && run[n].sink.pending.None?
    requires run[n].workers[k].writer.checkpoint == run[n].sink.durable.row
    requires
      var s, txn := run[n], run[n].source.log[run[n].workers[k].next];
      && txn.changes != [] && AllValid(txn.changes)
      && At(route, s.sink.durable.row.value.position) < At(route, txn.position)
    ensures
      var s, w, txn := run[n], run[n].workers[k].writer, run[n].source.log[run[n].workers[k].next];
      var plan := PlanChanges(txn.changes);
      && (plan.Ok? <==> AllPlannable(txn.changes))
      && (plan.Ok? ==>
            var o := Apply(route.server, w, s.sink, AttemptOf(route, txn, plan.value), true);
            && (o.result.Ok? <==> Applicable(w, txn))
            && (o.result.Ok? ==> IsAppliedBy(route, s, txn, o)))
  {
    var txn := run[n].source.log[run[n].workers[k].next];
    PlansSucceed(txn.changes);
    if PlanChanges(txn.changes).Ok? {
      PlannedIsApplied(route, run, actions, n, k, AttemptOf(route, txn, PlanChanges(txn.changes).value));
    }
  }

  /** The outcome is the transaction's effect: its position, and the source's tables after it. */
  ghost predicate IsAppliedBy(route: Route, s: State, t: Txn, o: Outcome<ApplyResult>) {
    && o.result.Ok? && !o.result.value.alreadyApplied && o.result.value.statements == |t.changes|
    && o.sink.durable.row == Some(o.result.value.checkpoint) && o.writer.checkpoint == o.sink.durable.row
    && o.result.value.checkpoint.position == t.position && o.result.value.checkpoint.last == Some(t.id)
    && |s.source.states| == |s.source.log| + 1
    && o.sink.durable.tables == ProjectAll(route.server.schema, TablesAt(route, s.source, t.position))
  }

  lemma {:induction false} PlannedIsApplied(route: Route, run: seq<State>, actions: seq<Action>, n: nat, k: nat,
                                            a: Attempt)
    requires GoodRoute(route) && IsRun(route, run, actions) && n < |run| && Delivers(run[n], k)
    requires IsIncremental(run[n]) && run[n].sink.pending.None?
    requires run[n].workers[k].writer.checkpoint == run[n].sink.durable.row
    requires AttemptFor(route, run[n].source.log[run[n].workers[k].next], a)
    requires
      var s, txn := run[n], run[n].source.log[run[n].workers[k].next];
      txn.changes != [] && At(route, s.sink.durable.row.value.position) < At(route, txn.position)
    ensures
      var s, w, txn := run[n], run[n].workers[k].writer, run[n].source.log[run[n].workers[k].next];
      var o := Apply(route.server, w, s.sink, a, true);
      && (o.result.Ok? <==> Applicable(w, txn))
      && (o.result.Ok? ==> IsAppliedBy(route, s, txn, o))
  {
    RunKeeps(route, run, actions, n);
    var s, w := run[n], run[n].workers[k];
    var src, d, i := s.source, s.sink.durable, w.next;
    assert GoodWorker(route, src, d, w);
    StreamGap(route, src, d, w.start.value, i, i);
    NextExecutes(route, src, d.row.value.position, d.tables, i, a);
    ControlTouched(src.log[i].changes);
    NextDecision(route, src, d, w, i, a);
    ApplyFollowsDecision(route.server, w.writer, s.sink, a);
    if Applicable(w.writer, src.log[i]) {
      var next := Decide(route.server, w.writer, d, a).value.next;
      AppliedDurable(route, s, w, i, a, next);
      WriteMeaning(route, src, d, w.writer, i, a, next);
      PlanSize(route, src.log[i], a);
    }
  }

  lemma {:induction false} ApplyFollowsDecision(server: Server, w: Writer, s: Sink, a: Attempt)
    requires s.pending.None?
    ensures
      var o, decision := Apply(server, w, s, a, true), Decide(server, w, s.durable, a);
      && (o.result.Ok? <==> decision.Ok?)
      && (decision.Ok? && decision.value.Write? ==>
            && o.sink.durable == decision.value.next && !o.result.value.alreadyApplied
            && o.result.value.statements == |Statements(a.plan)| && o.writer.checkpoint == o.sink.durable.row
            && o.sink.durable.row == Some(o.result.value.checkpoint))
  {
  }

  /** The statements of the next transaction run on the sink, unless they touch a control table. */
  lemma {:induction false} NextExecutes(route: Route, src: Source, p: Position, tables: Tables, i: nat, a: Attempt)
    requires GoodSource(route, src) && i < |src.log| && OnlyFilteredBetween(route, src, p, i)
    requires tables == ProjectAll(route.server.schema, TablesAt(route, src, p))
    requires AttemptFor(route, src.log[i], a)
    ensures Execution(route.server, tables, a.plan).Ok? <==> !TouchesControl(Statements(a.plan))
  {
    FilteredGap(route, src, Cut(route, src.log, At(route, p)), i);
    assert AppliesAt(route, src, i);
    if a.plan.Some? {
      TransactionIsSimulated(route.server.schema, src.states[i], src.log[i].changes, src.states[i + 1]);
    }
  }

  lemma {:induction false} NotCovered(route: Route, src: Source, cp: Checkpoint, i: nat)
    requires GoodLog(route, src) && GoodRow(route, src, cp) && i < |src.log|
    requires At(route, cp.position) < At(route, src.log[i].position)
    ensures Covered(route.server, cp, src.log[i].id, src.log[i].position)
            == if cp.mode == Gtid && !SingleGtid(src.log[i].id) then Err(InvalidGtid) else Ok(false)
  {
    var txn := src.log[i];
    assert GoodTxn(route, txn);
    CompareMeaning(route, cp.mode, txn.position, cp.position);
    assert {txn.id} <= Elements(cp.gtids) <==> txn.id in Elements(cp.gtids);
    if txn.id in Elements(cp.gtids) {
      BehindMeaning(route, src, txn.id, At(route, cp.position), i);
    }
  }

  /** Observations lie before the next transaction with selected rows. */
  lemma {:induction false} ObservedAllows(route: Route, src: Source, d: Durable, w: Worker, i: nat)
    requires GoodLog(route, src) && GoodWorker(route, src, d, w) && i < |src.log| && src.log[i].changes != []
    requires d.row.Some? && GoodRow(route, src, d.row.value)
    requires At(route, d.row.value.position) < At(route, src.log[i].position)
    ensures CheckObserved(w.writer, d.row.value.mode, src.log[i].position) == Ok(())
  {
    assert GoodTxn(route, src.log[i]);
    if w.writer.observedPosition.Some? {
      CompareMeaning(route, d.row.value.mode, src.log[i].position, w.writer.observedPosition.value);
    }
  }

  lemma {:induction false} AttemptIsRead(route: Route, w: Writer, d: Durable, t: Txn, a: Attempt)
    requires GoodTxn(route, t) && AttemptFor(route, t, a) && w.owner == route.owner && d.row == w.checkpoint
    requires d.row.Some? && d.row.value.phase == Incremental && CheckBinding(d.row.value, w.owner) == Ok(())
    ensures CheckAttempt(w, a) == if |t.id| <= 512 && Ascii(t.id) then Ok(t.position) else Err(SourceMismatch)
    ensures CheckRow(w, d) == Ok(d.row.value)
  {
  }

  lemma {:induction false} NextDecision(route: Route, src: Source, d: Durable, w: Worker, i: nat, a: Attempt)
    requires GoodLog(route, src) && GoodWorker(route, src, d, w) && i < |src.log| && d.row == w.writer.checkpoint
    requires d.row.Some? && GoodRow(route, src, d.row.value) && d.row.value.phase == Incremental
    requires AttemptFor(route, src.log[i], a) && src.log[i].changes != []
    requires At(route, d.row.value.position) < At(route, src.log[i].position)
    requires
      Execution(route.server, d.tables, a.plan).Ok?
      <==> forall j :: 0 <= j < |src.log[i].changes| ==> !NamesControl(src.log[i].changes[j].table.schema)
    ensures Decide(route.server, w.writer, d, a).Ok? <==> Applicable(w.writer, src.log[i])
    ensures Decide(route.server, w.writer, d, a).Ok? ==> Decide(route.server, w.writer, d, a).value.Write?
  {
    assert GoodTxn(route, src.log[i]);
    AttemptIsRead(route, w.writer, d, src.log[i], a);
    NotCovered(route, src, d.row.value, i);
    ObservedAllows(route, src, d, w, i);
  }

  // ---------------------------------------------------------------- where resolution says too much

  /**
   The phase is not consulted: while a snapshot is only prepared, no business row has been committed, and
   yet a transaction is called applied exactly when it lies before the boundary or its id is one of the
   boundary's GTIDs. Callers ask only in the incremental phase.
   */
  lemma {:induction false} ResolutionIgnoresSnapshotPhase(
      route: Route, run: seq<State>, actions: seq<Action>, n: nat, w: Writer, i: nat)
    requires GoodRoute(route) && IsRun(route, run, actions) && n < |run| && i < |run[n].source.log|
    requires run[n].sink.durable.row.Some? && run[n].sink.durable.row.value.phase == Snapshot
    requires run[n].sink.pending.None? && w.owner == route.owner
    ensures run[n].sink.durable.tables == route.initial
    ensures
      var s, txn, row := run[n], run[n].source.log[i], run[n].sink.durable.row.value;
      Resolve(route.server, w, s.sink, route.owner.source, txn.id, txn.cursor) == Ok(Applied)
      <==> At(route, txn.position) < At(route, row.position) || txn.id in Elements(row.gtids)
  {
    RunKeeps(route, run, actions, n);
    var src, cp := run[n].source, run[n].sink.durable.row.value;
    ResolveToRow(route, src, cp, w, run[n].sink, i);
    ResolvesBehind(route, src, cp, i);
  }

  lemma {:induction false} ResolvesBehind(route: Route, src: Source, cp: Checkpoint, i: nat)
    requires GoodLog(route, src) && GoodRow(route, src, cp) && i < |src.log| && cp.last.None?
    ensures
      var txn := src.log[i];
      ResolveRow(route.server, cp, txn.id, txn.position) == Ok(Applied)
      <==> At(route, txn.position) < At(route, cp.position) || txn.id in Elements(cp.gtids)
  {
    var txn := src.log[i];
    assert GoodTxn(route, txn);
    CompareMeaning(route, cp.mode, txn.position, cp.position);
    assert {txn.id} <= Elements(cp.gtids) <==> txn.id in Elements(cp.gtids);
  }
}
