/**
 The checkpoint writer: one durable row of replication progress, committed in the same sink transaction
 as the business rows it stands for.

 Every operation is a method of `CheckpointWriter` on the sink it is connected to, proved against a
 function of the writer's and the sink's old state. A commit whose acknowledgement is lost stays
 pending: it may take effect later or never. While it is pending it holds the row's lock, so a locking
 read or a write by anyone else fails with a lock timeout.
 */
module Checkpoints {
  import opened Outcomes
  import opened Cursor
  import opened Images
  import opened Rows

  type Id = seq<Byte>

  type Gtids = set<Id>

  datatype Phase = Snapshot | Incremental

  /** What a checkpoint row belongs to; the sink is known by its server identity. */
  datatype Owner = Owner(task: string, source: string, sink: string, binding: string)

  datatype Checkpoint = Checkpoint(
    owner: Owner, mode: Mode, position: Position, gtids: Option<Gtids>, last: Option<Id>, revision: nat,
    appliedTransactions: nat, appliedRows: nat, phase: Phase, snapshotRows: nat, snapshotGtids: Option<Gtids>)

  datatype WriterError =
    | SourceMismatch | SnapshotNotCommitted | NotInitialized | LockTimeout | CheckpointMissing | OtherTask
    | InvalidMode | ChangedOutside | InvalidGtid | HistoriesDisagree | AheadOfObservations | RevisionOverflow
    | CommitUnknown | NotFiltered | OutOfOrder | NotReplaceable | SnapshotPhaseRequired | CountOverflow
    | EmptyScope | TargetNotEmpty | BatchMismatch | InvalidBatch | IncompleteSnapshot | AlreadyExists | SourceFailed
    | CursorFailure(cursor: CursorError) | RowFailure(row: RowError)

  // ---------------------------------------------------------------- state

  /** What the sink has committed: the task's row and the business tables. */
  datatype Durable = Durable(row: Option<Checkpoint>, tables: Tables)

  datatype Sink = Sink(durable: Durable, pending: Option<Durable>)

  datatype Writer = Writer(
    owner: Owner, checkpoint: Option<Checkpoint>, observedGtids: Option<Gtids>, observedPosition: Option<Position>)

  /** The sink's table definitions, and its GTID parser: the set a text names, when it names one. */
  datatype Server = Server(schema: Schema, canonical: Id -> Option<Gtids>)

  datatype Outcome<T> = Outcome(writer: Writer, sink: Sink, result: Result<T, WriterError>)

  function Commit(s: Sink, next: Durable, acknowledged: bool): Sink {
    if acknowledged then s.(durable := next) else s.(pending := Some(next))
  }

  /** A pending commit takes effect, or is rolled back by the server. */
  function Settle(s: Sink, landed: bool): Sink {
    if s.pending.Some? && landed then Sink(s.pending.value, None) else s.(pending := None)
  }

  function Elements(gtids: Option<Gtids>): Gtids {
    if gtids.Some? then gtids.value else {}
  }

  // ---------------------------------------------------------------- checks

  function CheckBinding(cp: Checkpoint, owner: Owner): Result<(), WriterError> {
    if cp.owner.source != owner.source || cp.owner.sink != owner.sink || cp.owner.binding != owner.binding
    then Err(OtherTask)
    else if !ValidCheckpointPosition(cp.mode, cp.position) then Err(CursorFailure(InvalidPosition))
    else if (cp.mode == Gtid) != cp.gtids.Some? then Err(InvalidMode)
    else Ok(())
  }

  function Compare(mode: Option<Mode>, a: Position, b: Position): Result<Ordering, WriterError> {
    match CompareCheckpointPosition(mode, a, b)
    case Err(e) => Err(CursorFailure(e))
    case Ok(order) => Ok(order)
  }

  function ReadCursor(cursor: SourceCursor): Result<Position, WriterError> {
    match FilePosition(cursor)
    case Err(e) => Err(CursorFailure(e))
    case Ok(p) => Ok(p)
  }

  predicate Ascii(text: Id) {
    forall i :: 0 <= i < |text| ==> text[i] < 128
  }

  const COLON: Byte := 58
  const COMMA: Byte := 44

  /** One GTID: no comma, and a positive number after the last colon. */
  predicate SingleGtid(id: Id) {
    && COMMA !in id
    && SplitLast(id, COLON).Some?
    && ParseUnsigned(SplitLast(id, COLON).value.1, 10).Some?
    && ParseUnsigned(SplitLast(id, COLON).value.1, 10).value > 0
  }

  // ---------------------------------------------------------------- apply and advance

  /** One source transaction with its planned statements; `advance` has none. */
  datatype Attempt = Attempt(source: string, id: Id, cursor: SourceCursor, plan: Option<seq<Statement>>)

  datatype Decision = AlreadyApplied | Write(next: Durable)

  datatype ApplyResult = ApplyResult(checkpoint: Checkpoint, statements: nat, alreadyApplied: bool)

  /** What is checked before the sink transaction starts: the position to apply at. */
  function CheckAttempt(w: Writer, a: Attempt): Result<Position, WriterError> {
    if a.source != w.owner.source || |a.id| > 512 || a.id == [] || !Ascii(a.id) then Err(SourceMismatch)
    else if w.checkpoint.Some? && w.checkpoint.value.phase != Incremental then Err(SnapshotNotCommitted)
    else
      match ReadCursor(a.cursor)
      case Err(e) => Err(e)
      case Ok(p) => if w.checkpoint.None? then Err(NotInitialized) else Ok(p)
  }

  /** The durable row, when it is still the one this writer knows. */
  function CheckRow(w: Writer, durable: Durable): Result<Checkpoint, WriterError> {
    if durable.row.None? then Err(CheckpointMissing)
    else
      match CheckBinding(durable.row.value, w.owner)
      case Err(e) => Err(e)
      case Ok(_) => if durable.row != w.checkpoint then Err(ChangedOutside) else Ok(durable.row.value)
  }

  /** Whether the row already covers the transaction. */
  function Covered(server: Server, cp: Checkpoint, id: Id, p: Position): Result<bool, WriterError> {
    match Compare(Some(cp.mode), p, cp.position)
    case Err(e) => Err(e)
    case Ok(order) =>
      if cp.mode != Gtid then Ok(order != Greater)
      else
        var gtid := server.canonical(id);
        if gtid.None? || !SingleGtid(id) then Err(InvalidGtid)
        else
          var included := gtid.value <= Elements(cp.gtids);
          if !included && order != Greater then Err(HistoriesDisagree) else Ok(included)
  }

  /** Filtered transactions seen so far must not lie past the transaction that makes them durable. */
  function CheckObserved(w: Writer, mode: Mode, p: Position): Result<(), WriterError> {
    if w.observedPosition.None? then Ok(())
    else
      match Compare(Some(mode), p, w.observedPosition.value)
      case Err(e) => Err(e)
      case Ok(order) => if order == Less then Err(AheadOfObservations) else Ok(())
  }

  function Statements(plan: Option<seq<Statement>>): seq<Statement> {
    if plan.Some? then plan.value else []
  }

  function Execution(server: Server, tables: Tables, plan: Option<seq<Statement>>): Result<Tables, WriterError> {
    if plan.None? then Ok(tables)
    else
      match RunPlan(server.schema, tables, plan.value)
      case Err(e) => Err(RowFailure(e))
      case Ok(next) => Ok(next)
  }

  function NextGtids(server: Server, w: Writer, cp: Checkpoint, id: Id): Result<Option<Gtids>, WriterError> {
    if cp.mode != Gtid then Ok(cp.gtids)
    else if server.canonical(id).None? then Err(InvalidGtid)
    else Ok(Some(Elements(cp.gtids) + Elements(w.observedGtids) + server.canonical(id).value))
  }

  /** The row after a transaction of `rows` statements. */
  function NextCheckpoint(cp: Checkpoint, id: Id, p: Position, gtids: Option<Gtids>, rows: nat): Checkpoint {
    cp.(position := p, gtids := gtids, last := Some(id), revision := cp.revision + 1,
        appliedTransactions := cp.appliedTransactions + (if rows > 0 then 1 else 0),
        appliedRows := cp.appliedRows + rows)
  }

  /** What the sink transaction will do, before its commit. */
  function Decide(server: Server, w: Writer, durable: Durable, a: Attempt): Result<Decision, WriterError> {
    match CheckAttempt(w, a)
    case Err(e) => Err(e)
    case Ok(p) =>
      match CheckRow(w, durable)
      case Err(e) => Err(e)
      case Ok(cp) =>
        match Covered(server, cp, a.id, p)
        case Err(e) => Err(e)
        case Ok(covered) =>
          if covered then Ok(AlreadyApplied)
          else DecideWrite(server, w, durable.tables, a, cp, p)
  }

  function DecideWrite(server: Server, w: Writer, tables: Tables, a: Attempt, cp: Checkpoint, p: Position)
    : Result<Decision, WriterError>
  {
    match CheckObserved(w, cp.mode, p)
    case Err(e) => Err(e)
    case Ok(_) =>
      match Execution(server, tables, a.plan)
      case Err(e) => Err(e)
      case Ok(next) =>
        match NextGtids(server, w, cp, a.id)
        case Err(e) => Err(e)
        case Ok(gtids) =>
          if cp.revision >= U64_MAX then Err(RevisionOverflow)
          else Ok(Write(Durable(Some(NextCheckpoint(cp, a.id, p, gtids, |Statements(a.plan)|)), next)))
  }

  /** `apply` and `advance`; without an acknowledgement the writer learns nothing and keeps its state. */
  function Apply(server: Server, w: Writer, s: Sink, a: Attempt, acknowledged: bool): Outcome<ApplyResult> {
    var early := CheckAttempt(w, a);
    if early.Err? then Outcome(w, s, Err(early.error))
    else if s.pending.Some? then Outcome(w, s, Err(LockTimeout))
    else
      match Decide(server, w, s.durable, a)
      case Err(e) => Outcome(w, s, Err(e))
      case Ok(AlreadyApplied) => Outcome(w, s, Ok(ApplyResult(w.checkpoint.value, 0, true)))
      case Ok(Write(next)) =>
        if acknowledged then
          Outcome(w.(checkpoint := next.row, observedGtids := None, observedPosition := None),
                  Commit(s, next, true), Ok(ApplyResult(next.row.value, |Statements(a.plan)|, false)))
        else Outcome(w, Commit(s, next, false), Err(CommitUnknown))
  }

  // ---------------------------------------------------------------- filtered transactions

  function Observe(server: Server, w: Writer, empty: bool, source: string, id: Id, cursor: SourceCursor)
    : Result<Writer, WriterError>
  {
    if !empty || source != w.owner.source then Err(NotFiltered)
    else
      var mode := if w.checkpoint.Some? then Some(w.checkpoint.value.mode) else None;
      match ReadCursor(cursor)
      case Err(e) => Err(e)
      case Ok(p) =>
        match if w.observedPosition.None? then Ok(Greater) else Compare(mode, p, w.observedPosition.value)
        case Err(e) => Err(e)
        case Ok(order) =>
          if order != Greater then Err(OutOfOrder)
          else if mode != Some(Gtid) then Ok(w.(observedPosition := Some(p)))
          else if server.canonical(id).None? then Err(InvalidGtid)
          else
            var gtids := Elements(w.observedGtids) + server.canonical(id).value;
            Ok(w.(observedGtids := Some(gtids), observedPosition := Some(p)))
  }

  // ---------------------------------------------------------------- boundaries

  function Fresh(owner: Owner, mode: Mode, p: Position, gtids: Option<Gtids>): Checkpoint {
    Checkpoint(owner, mode, p, gtids, None, 0, 0, 0, Incremental, 0, None)
  }

  /** Reading the row when a writer connects; this read takes no lock. */
  function Open(owner: Owner, s: Sink): Result<Writer, WriterError> {
    if s.durable.row.None? then Ok(Writer(owner, None, None, None))
    else
      match CheckBinding(s.durable.row.value, owner)
      case Err(e) => Err(e)
      case Ok(_) => Ok(Writer(owner, s.durable.row, None, None))
  }

  /** A new route's starting boundary; a writer that has a checkpoint keeps it. */
  function Initialize(w: Writer, s: Sink, mode: Mode, p: Position, gtids: Option<Gtids>, acknowledged: bool)
    : Outcome<Checkpoint>
  {
    if w.checkpoint.Some? then Outcome(w, s, Ok(w.checkpoint.value))
    else if !ValidCheckpointPosition(mode, p) then Outcome(w, s, Err(CursorFailure(InvalidPosition)))
    else if (mode == Gtid) != gtids.Some? then Outcome(w, s, Err(InvalidMode))
    else if s.pending.Some? then Outcome(w, s, Err(LockTimeout))
    else if s.durable.row.Some? then Outcome(w, s, Err(AlreadyExists))
    else
      var next := s.durable.(row := Some(Fresh(w.owner, mode, p, gtids)));
      if acknowledged then Outcome(w.(checkpoint := next.row), Commit(s, next, true), Ok(next.row.value))
      else Outcome(w, Commit(s, next, false), Err(CommitUnknown))
  }

  datatype Boundary = Boundary(source: string, mode: Mode, position: Position, executed: Gtids)

  function BoundaryGtids(b: Boundary): Option<Gtids> {
    if b.mode == Gtid then Some(b.executed) else None
  }

  function MarkedRow(owner: Owner, row: Option<Checkpoint>, b: Boundary): Checkpoint {
    var gtids := BoundaryGtids(b);
    if row.Some? then
      row.value.(mode := b.mode, position := b.position, gtids := gtids, snapshotGtids := Some(b.executed),
                 revision := row.value.revision + 1)
    else Fresh(owner, b.mode, b.position, gtids).(phase := Snapshot, snapshotGtids := Some(b.executed))
  }

  function PrepareSnapshot(w: Writer, s: Sink, b: Boundary, acknowledged: bool): Outcome<Checkpoint> {
    if b.source != w.owner.source then Outcome(w, s, Err(SourceMismatch))
    else if !ValidPosition(b.position) then Outcome(w, s, Err(CursorFailure(InvalidPosition)))
    else if b.mode == PostgresqlLsn then Outcome(w, s, Err(InvalidMode))
    else if w.checkpoint.Some? && w.checkpoint.value.phase != Snapshot then Outcome(w, s, Err(NotReplaceable))
    else if s.pending.Some? then Outcome(w, s, Err(LockTimeout))
    else if s.durable.row != w.checkpoint then Outcome(w, s, Err(ChangedOutside))
    else if s.durable.row.Some? && s.durable.row.value.revision >= U64_MAX then Outcome(w, s, Err(RevisionOverflow))
    else
      var next := s.durable.(row := Some(MarkedRow(w.owner, s.durable.row, b)));
      if acknowledged then Outcome(w.(checkpoint := next.row), Commit(s, next, true), Ok(next.row.value))
      else Outcome(w, Commit(s, next, false), Err(CommitUnknown))
  }

  // ---------------------------------------------------------------- the copy

  datatype Batch = Batch(source: string, table: TableId, rows: seq<Image>, last: bool)

  predicate CompleteImage(row: Image) {
    && ValidImage(row, Insert, false)
    && HasKey(row)
    && forall i :: 0 <= i < |row| ==> row[i].datum.Null? || row[i].datum.Value?
  }

  predicate ValidBatch(b: Batch) {
    && GoodIdentifier(b.table.schema) && GoodIdentifier(b.table.table)
    && (b.rows != [] || b.last)
    && forall i :: 0 <= i < |b.rows| ==> CompleteImage(b.rows[i])
  }

  /** Each row of a batch is inserted like the after image of an INSERT. */
  function InsertChanges(table: TableId, rows: seq<Image>): (changes: seq<RowChange>)
    ensures |changes| == |rows|
  {
    seq(|rows|, i requires 0 <= i < |rows| => RowChange(Insert, table, None, Some(rows[i])))
  }

  function CopyBatch(schema: Schema, tables: Tables, b: Batch): Result<Tables, WriterError> {
    match PlanChanges(InsertChanges(b.table, b.rows))
    case Err(e) => Err(RowFailure(e))
    case Ok(plan) =>
      match RunPlan(schema, tables, plan)
      case Err(e) => Err(RowFailure(e))
      case Ok(next) => Ok(next)
  }

  /** What the copy loop carries: the table it expects, the rows so far and the tables so far. */
  datatype Progress = Progress(index: nat, rows: nat, tables: Tables)

  /** One batch of the snapshot stream; an error of the stream, or of the progress callback, ends the copy. */
  function CopyNext(schema: Schema, source: string, scope: seq<TableId>, item: Result<Batch, ()>, at: Progress)
    : Result<Progress, WriterError>
  {
    if item.Err? then Err(SourceFailed)
    else
      var b := item.value;
      if at.index >= |scope| || b.source != source || b.table != scope[at.index] then Err(BatchMismatch)
      else if !ValidBatch(b) then Err(InvalidBatch)
      else
        match CopyBatch(schema, at.tables, b)
        case Err(e) => Err(e)
        case Ok(tables) =>
          if at.rows + |b.rows| > U64_MAX then Err(CountOverflow)
          else Ok(Progress(at.index + (if b.last then 1 else 0), at.rows + |b.rows|, tables))
  }

  function CopyAll(schema: Schema, source: string, scope: seq<TableId>, batches: seq<Result<Batch, ()>>, at: Progress)
    : Result<Progress, WriterError>
  {
    if batches == [] then if at.index != |scope| then Err(IncompleteSnapshot) else Ok(at)
    else
      match CopyNext(schema, source, scope, batches[0], at)
      case Err(e) => Err(e)
      case Ok(next) => CopyAll(schema, source, scope, batches[1..], next)
  }

  predicate TargetsEmpty(tables: Tables, scope: seq<TableId>) {
    forall i :: 0 <= i < |scope| ==> scope[i] in tables && tables[scope[i]] == {} && !IsControlSchema(scope[i].schema)
  }

  /** All rows and the transition to the incremental phase. */
  function DecideCopy(server: Server, w: Writer, durable: Durable, scope: seq<TableId>, batches: seq<Result<Batch, ()>>)
    : Result<Durable, WriterError>
  {
    if w.checkpoint.None? then Err(NotInitialized)
    else if w.checkpoint.value.phase != Snapshot then Err(SnapshotPhaseRequired)
    else if durable.row != w.checkpoint then Err(ChangedOutside)
    else if scope == [] then Err(EmptyScope)
    else if !TargetsEmpty(durable.tables, scope) then Err(TargetNotEmpty)
    else
      match CopyAll(server.schema, w.owner.source, scope, batches, Progress(0, 0, durable.tables))
      case Err(e) => Err(e)
      case Ok(end) =>
        var cp := durable.row.value;
        if cp.revision >= U64_MAX then Err(RevisionOverflow)
        else
          var row := cp.(phase := Incremental, snapshotRows := end.rows, revision := cp.revision + 1);
          Ok(Durable(Some(row), end.tables))
  }

  function CopySnapshot(
      server: Server, w: Writer, s: Sink, scope: seq<TableId>, batches: seq<Result<Batch, ()>>, acknowledged: bool)
    : Outcome<Checkpoint>
  {
    if w.checkpoint.None? then Outcome(w, s, Err(NotInitialized))
    else if w.checkpoint.value.phase != Snapshot then Outcome(w, s, Err(SnapshotPhaseRequired))
    else if s.pending.Some? then Outcome(w, s, Err(LockTimeout))
    else
      match DecideCopy(server, w, s.durable, scope, batches)
      case Err(e) => Outcome(w, s, Err(e))
      case Ok(next) =>
        if acknowledged then Outcome(w.(checkpoint := next.row), Commit(s, next, true), Ok(next.row.value))
        else Outcome(w, Commit(s, next, false), Err(CommitUnknown))
  }

  // ---------------------------------------------------------------- unknown commits

  datatype Resolution = Applied | NotApplied | Unprovable

  /** Reads the row under its lock and changes nothing. */
  function Resolve(server: Server, w: Writer, s: Sink, source: string, id: Id, cursor: SourceCursor)
    : Result<Resolution, WriterError>
  {
    if source != w.owner.source || id == [] then Err(SourceMismatch)
    else
      match ReadCursor(cursor)
      case Err(e) => Err(e)
      case Ok(p) =>
        if s.pending.Some? then Err(LockTimeout)
        else if s.durable.row.None? then Err(CheckpointMissing)
        else
          match CheckBinding(s.durable.row.value, w.owner)
          case Err(e) => Err(e)
          case Ok(_) => ResolveRow(server, s.durable.row.value, id, p)
  }

  function ResolveRow(server: Server, cp: Checkpoint, id: Id, p: Position): Result<Resolution, WriterError> {
    if cp.last == Some(id) then Ok(Applied)
    else
      match Compare(Some(cp.mode), p, cp.position)
      case Err(e) => Err(e)
      case Ok(order) =>
        if cp.mode == Gtid && server.canonical(id).None? then Err(InvalidGtid)
        else
          var included := cp.mode == Gtid && server.canonical(id).value <= Elements(cp.gtids);
          if included || order == Less then Ok(Applied)
          else if order == Greater then Ok(NotApplied)
          else Ok(Unprovable)
  }
}
