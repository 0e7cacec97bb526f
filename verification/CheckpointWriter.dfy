/** The checkpoint writer as the object that the source updates in place, proved against `Checkpoints`. */
module CheckpointWriters {
  import opened Outcomes
  import opened Cursor
  import opened Images
  import opened Rows
  import opened C = Checkpoints

  /** The sink database as every writer of the task shares it. */
  class SinkServer {
    const server: Server
    var durable: Durable
    var pending: Option<Durable>

    constructor (server: Server, tables: Tables)
      ensures this.server == server && State() == Sink(Durable(None, tables), None)
    {
      this.server := server;
      durable := Durable(None, tables);
      pending := None;
    }

    ghost function State(): Sink
      reads this
    {
      Sink(durable, pending)
    }

    /** COMMIT: without an acknowledgement the transaction is left to the server. */
    method CommitTransaction(next: Durable, acknowledged: bool)
      modifies this
      ensures State() == Commit(old(State()), next, acknowledged)
    {
      if acknowledged {
        durable := next;
      } else {
        pending := Some(next);
      }
    }
  }

  class CheckpointWriter {
    const sink: SinkServer
    const owner: Owner
    var checkpoint: Option<Checkpoint>
    var observedGtids: Option<Gtids>
    var observedPosition: Option<Position>

    function State(): Writer
      reads this
    {
      Writer(owner, checkpoint, observedGtids, observedPosition)
    }

    constructor (sink: SinkServer, owner: Owner, checkpoint: Option<Checkpoint>)
      ensures this.sink == sink && State() == Writer(owner, checkpoint, None, None)
    {
      this.sink, this.owner, this.checkpoint := sink, owner, checkpoint;
      observedGtids, observedPosition := None, None;
    }

    /** Connecting reads the row without a lock. */
    static method Connect(sink: SinkServer, owner: Owner) returns (r: Result<CheckpointWriter, WriterError>)
      ensures match C.Open(owner, sink.State())
              case Err(e) => r == Err(e)
              case Ok(w) => r.Ok? && fresh(r.value) && r.value.sink == sink && r.value.State() == w
    {
      var row := sink.durable.row;
      if row.Some? {
        var bound := CheckBinding(row.value, owner);
        if bound.Err? {
          return Err(bound.error);
        }
      }
      var w := new CheckpointWriter(sink, owner, row);
      return Ok(w);
    }

    method Initialize(mode: Mode, p: Position, gtids: Option<Gtids>, acknowledged: bool)
      returns (r: Result<Checkpoint, WriterError>)
      modifies this, sink
      ensures Outcome(State(), sink.State(), r)
              == C.Initialize(old(State()), old(sink.State()), mode, p, gtids, acknowledged)
    {
      if checkpoint.Some? {
        return Ok(checkpoint.value);
      }
      if !ValidCheckpointPosition(mode, p) {
        return Err(CursorFailure(InvalidPosition));
      }
      if (mode == Gtid) != gtids.Some? {
        return Err(InvalidMode);
      }
      if sink.pending.Some? {
        return Err(LockTimeout);
      }
      if sink.durable.row.Some? {
        return Err(AlreadyExists);
      }
      var row := Fresh(owner, mode, p, gtids);
      sink.CommitTransaction(sink.durable.(row := Some(row)), acknowledged);
      if !acknowledged {
        return Err(CommitUnknown);
      }
      checkpoint := Some(row);
      return Ok(row);
    }

    method PrepareSnapshot(b: Boundary, acknowledged: bool) returns (r: Result<Checkpoint, WriterError>)
      modifies this, sink
      ensures Outcome(State(), sink.State(), r)
              == C.PrepareSnapshot(old(State()), old(sink.State()), b, acknowledged)
    {
      if b.source != owner.source {
        return Err(SourceMismatch);
      }
      if !ValidPosition(b.position) {
        return Err(CursorFailure(InvalidPosition));
      }
      if b.mode == PostgresqlLsn {
        return Err(InvalidMode);
      }
      if checkpoint.Some? && checkpoint.value.phase != Snapshot {
        return Err(NotReplaceable);
      }
      if sink.pending.Some? {
        return Err(LockTimeout);
      }
      var actual := sink.durable.row;
      if actual != checkpoint {
        return Err(ChangedOutside);
      }
      if actual.Some? && actual.value.revision >= U64_MAX {
        return Err(RevisionOverflow);
      }
      var row := MarkedRow(owner, actual, b);
      sink.CommitTransaction(sink.durable.(row := Some(row)), acknowledged);
      if !acknowledged {
        return Err(CommitUnknown);
      }
      checkpoint := Some(row);
      return Ok(row);
    }

    /** The loop over the snapshot stream inside one sink transaction, which a failure drops. */
    method CopySnapshot(scope: seq<TableId>, batches: seq<Result<Batch, ()>>, acknowledged: bool)
      returns (r: Result<Checkpoint, WriterError>)
      modifies this, sink
      ensures Outcome(State(), sink.State(), r)
              == C.CopySnapshot(sink.server, old(State()), old(sink.State()), scope, batches, acknowledged)
    {
      if checkpoint.None? {
        return Err(NotInitialized);
      }
      if checkpoint.value.phase != Snapshot {
        return Err(SnapshotPhaseRequired);
      }
      if sink.pending.Some? {
        return Err(LockTimeout);
      }
      if sink.durable.row != checkpoint {
        return Err(ChangedOutside);
      }
      if scope == [] {
        return Err(EmptyScope);
      }
      if !TargetsEmpty(sink.durable.tables, scope) {
        return Err(TargetNotEmpty);
      }
      var tableIndex, rowCount, tables := 0, 0, sink.durable.tables;
      for n := 0 to |batches|
        invariant
          CopyAll(sink.server.schema, owner.source, scope, batches, Progress(0, 0, sink.durable.tables))
          == CopyAll(sink.server.schema, owner.source, scope, batches[n..], Progress(tableIndex, rowCount, tables))
      {
        assert batches[n..][0] == batches[n] && batches[n..][1..] == batches[n + 1..];
        var progress := Progress(tableIndex, rowCount, tables);
        var next := CopyNext(sink.server.schema, owner.source, scope, batches[n], progress);
        if next.Err? {
          return Err(next.error);
        }
        tableIndex, rowCount, tables := next.value.index, next.value.rows, next.value.tables;
      }
      if tableIndex != |scope| {
        return Err(IncompleteSnapshot);
      }
      if checkpoint.value.revision >= U64_MAX {
        return Err(RevisionOverflow);
      }
      var row := checkpoint.value.(phase := Incremental, snapshotRows := rowCount,
                                   revision := checkpoint.value.revision + 1);
      sink.CommitTransaction(Durable(Some(row), tables), acknowledged);
      if !acknowledged {
        return Err(CommitUnknown);
      }
      checkpoint := Some(row);
      return Ok(row);
    }

    method Observe(empty: bool, source: string, id: Id, cursor: SourceCursor) returns (r: Result<(), WriterError>)
      modifies this
      ensures match C.Observe(sink.server, old(State()), empty, source, id, cursor)
              case Err(e) => r == Err(e) && State() == old(State())
              case Ok(w) => r == Ok(()) && State() == w
    {
      if !empty || source != owner.source {
        return Err(NotFiltered);
      }
      var p := ReadCursor(cursor);
      if p.Err? {
        return Err(p.error);
      }
      var mode := if checkpoint.Some? then Some(checkpoint.value.mode) else None;
      if observedPosition.Some? {
        var order := Compare(mode, p.value, observedPosition.value);
        if order.Err? {
          return Err(order.error);
        }
        if order.value != Greater {
          return Err(OutOfOrder);
        }
      }
      if mode == Some(Gtid) {
        var gtid := sink.server.canonical(id);
        if gtid.None? {
          return Err(InvalidGtid);
        }
        observedGtids := Some(Elements(observedGtids) + gtid.value);
      }
      observedPosition := Some(p.value);
      return Ok(());
    }

    /** `apply` with a plan, `advance` without. */
    method Apply(a: Attempt, acknowledged: bool) returns (r: Result<ApplyResult, WriterError>)
      modifies this, sink
      ensures Outcome(State(), sink.State(), r)
              == C.Apply(sink.server, old(State()), old(sink.State()), a, acknowledged)
    {
      var p := CheckAttempt(State(), a);
      if p.Err? {
        return Err(p.error);
      }
      if sink.pending.Some? {
        return Err(LockTimeout);
      }
      var known := CheckRow(State(), sink.durable);
      if known.Err? {
        return Err(known.error);
      }
      var cp := known.value;
      var covered := Covered(sink.server, cp, a.id, p.value);
      if covered.Err? {
        return Err(covered.error);
      }
      if covered.value {
        return Ok(ApplyResult(cp, 0, true));
      }
      var observed := CheckObserved(State(), cp.mode, p.value);
      if observed.Err? {
        return Err(observed.error);
      }
      var tables := sink.durable.tables;
      if a.plan.Some? {
        var tx := new SinkTransaction(sink.server.schema, tables);
        var executed := tx.ExecuteStatements(a.plan.value);
        if executed.Err? {
          return Err(RowFailure(executed.error));
        }
        tables := tx.tables;
      }
      var gtids := NextGtids(sink.server, State(), cp, a.id);
      if gtids.Err? {
        return Err(gtids.error);
      }
      if cp.revision >= U64_MAX {
        return Err(RevisionOverflow);
      }
      var rows := |Statements(a.plan)|;
      cp := NextCheckpoint(cp, a.id, p.value, gtids.value, rows);
      sink.CommitTransaction(Durable(Some(cp), tables), acknowledged);
      if !acknowledged {
        return Err(CommitUnknown);
      }
      checkpoint := Some(cp);
      observedGtids, observedPosition := None, None;
      return Ok(ApplyResult(cp, rows, false));
    }

    /** Reads only; the sink and the writer stay as they are. */
    method ResolveCommitUnknown(source: string, id: Id, cursor: SourceCursor)
      returns (r: Result<Resolution, WriterError>)
      ensures r == C.Resolve(sink.server, State(), sink.State(), source, id, cursor)
    {
      if source != owner.source || id == [] {
        return Err(SourceMismatch);
      }
      var p := ReadCursor(cursor);
      if p.Err? {
        return Err(p.error);
      }
      if sink.pending.Some? {
        return Err(LockTimeout);
      }
      var row := sink.durable.row;
      if row.None? {
        return Err(CheckpointMissing);
      }
      var bound := CheckBinding(row.value, owner);
      if bound.Err? {
        return Err(bound.error);
      }
      return ResolveRow(sink.server, row.value, id, p.value);
    }
  }
}
