/**
 Taking a snapshot under the source's global read lock: the position is read first, the read view is
 opened next, and the reader is handed out only after UNLOCK succeeds on the connection that locked.
 Source commits, log rotation and the death of the lock connection may happen between any two steps.
 */
module SnapshotLocks {
  import opened Outcomes
  import opened Cursor
  import opened Rows
  import opened Simulation
  import opened Checkpoints
  import opened SourceLogs
  import opened Replication
  import opened Safety

  // ---------------------------------------------------------------- the lock's connection

  /** The server's view of the lock connection; when it dies the server releases its lock. */
  datatype Session = Session(alive: bool, locked: bool)

  function Flushed(session: Session): Option<Session> {
    if session.alive then Some(session.(locked := true)) else None
  }

  function Unlocked(session: Session): Option<Session> {
    if session.alive then Some(session.(locked := false)) else None
  }

  class LockConnection {
    var session: Session

    constructor ()
      ensures session == Session(true, false)
    {
      session := Session(true, false);
    }

    method Flush() returns (ok: bool)
      modifies this
      ensures ok == old(session).alive
      ensures session == if ok then Flushed(old(session)).value else old(session)
    {
      ok := session.alive;
      if ok {
        session := session.(locked := true);
      }
    }

    method UnlockTables() returns (ok: bool)
      modifies this
      ensures ok == old(session).alive
      ensures session == if ok then Unlocked(old(session)).value else old(session)
    {
      ok := session.alive;
      if ok {
        session := session.(locked := false);
      }
    }
  }

  /** The guard that owns the lock connection. */
  class ReadLock {
    const conn: LockConnection
    var held: bool

    constructor (conn: LockConnection)
      ensures this.conn == conn && held
    {
      this.conn, held := conn, true;
    }

    static method Acquire(conn: LockConnection) returns (r: Option<ReadLock>)
      modifies conn
      ensures r.Some? <==> old(conn.session).alive
      ensures r.Some? ==> fresh(r.value) && r.value.conn == conn && r.value.held && conn.session.locked
      ensures r.None? ==> conn.session == old(conn.session)
    {
      var lock := new ReadLock(conn);
      var ok := conn.Flush();
      if !ok {
        lock.Drop();
        return None;
      }
      return Some(lock);
    }

    /** Succeeds only on the original connection, still alive; afterwards nothing is left to release. */
    method Release() returns (ok: bool)
      modifies this, conn
      ensures ok == old(conn.session).alive
      ensures ok ==> !held && !conn.session.locked && conn.session.alive
      ensures !ok ==> held == old(held) && conn.session == old(conn.session)
    {
      ok := conn.UnlockTables();
      if ok {
        held := false;
      }
    }

    method Drop()
      modifies conn
      ensures conn.session.alive == old(conn.session).alive
      ensures held && conn.session.alive ==> !conn.session.locked
      ensures !held || !old(conn.session).alive ==> conn.session == old(conn.session)
    {
      if held {
        var _ := conn.UnlockTables();
      }
    }
  }

  // ---------------------------------------------------------------- the steps of one snapshot

  datatype Stage =
    | Idle
    | Locked
    | Positioned(boundary: Boundary)
    | Viewing(boundary: Boundary, tables: Tables, pinned: nat)
    | Returned(view: View)
    | Failed

  datatype Taking = Taking(source: Source, session: Session, stage: Stage)

  datatype Move =
    | CommitAtSource(txn: Txn, tables: Tables, end: nat)
    | RotateAtSource(end: nat)
    | LockDies
    | AcquireLock
    | ReadPosition(boundary: Boundary)
    | OpenView
    | PinTable
    | ReleaseLock
    | GiveUp

  function Executed(src: Source): Gtids {
    src.purged + set i | 0 <= i < |src.log| :: src.log[i].id
  }

  /** What SHOW MASTER STATUS reports: the log's end and every executed id. */
  ghost predicate Reports(route: Route, src: Source, b: Boundary) {
    && b.source == route.owner.source && SameKind(route, b.mode)
    && Placed(route, b.position) && At(route, b.position) == src.end && b.executed == Executed(src)
  }

  /** One move of a snapshot of `scope` tables, or of the world around it. */
  ghost predicate Moves(route: Route, scope: nat, s: Taking, m: Move, t: Taking)
    requires |s.source.states| == |s.source.log| + 1
  {
    match m
    case CommitAtSource(txn, tables, end) =>
      // The global read lock blocks commits.
      && !s.session.locked
      && Commits(route, s.source, SourceCommit(txn, tables, end), t.source)
      && t == s.(source := t.source)
    case RotateAtSource(end) => s.source.end <= end && t == s.(source := s.source.(end := end))
    case LockDies => t == s.(session := Session(false, false))
    case AcquireLock =>
      && s.stage.Idle? && Flushed(s.session).Some?
      && t == s.(session := Flushed(s.session).value, stage := Locked)
    case ReadPosition(b) => s.stage.Locked? && Reports(route, s.source, b) && t == s.(stage := Positioned(b))
    case OpenView =>
      && s.stage.Positioned?
      && t == s.(stage := Viewing(s.stage.boundary, s.source.states[|s.source.log|], 0))
    case PinTable =>
      && s.stage.Viewing? && s.stage.pinned < scope
      && t == s.(stage := s.stage.(pinned := s.stage.pinned + 1))
    case ReleaseLock =>
      && s.stage.Viewing? && s.stage.pinned == scope
      && var unlocked := Unlocked(s.session);
         t == if unlocked.None? then s.(stage := Failed)
              else s.(session := unlocked.value, stage := Returned(View(s.stage.boundary, s.stage.tables)))
    case GiveUp => t == s.(session := Session(s.session.alive, false), stage := Failed)
  }

  ghost predicate MovesAt(route: Route, scope: nat, run: seq<Taking>, moves: seq<Move>, n: nat)
    requires |run| == |moves| + 1 && n < |moves|
  {
    |run[n].source.states| == |run[n].source.log| + 1 && Moves(route, scope, run[n], moves[n], run[n + 1])
  }

  ghost predicate IsTaking(route: Route, scope: nat, run: seq<Taking>, moves: seq<Move>) {
    && |run| == |moves| + 1
    && GoodSource(route, run[0].source) && run[0].session == Session(true, false) && run[0].stage == Idle
    && forall n :: 0 <= n < |moves| ==> MovesAt(route, scope, run, moves, n)
  }

  // ---------------------------------------------------------------- the invariant

  /** The boundary counts exactly the transactions logged so far. */
  ghost predicate Exact(route: Route, src: Source, b: Boundary) {
    && SourceBoundary(route, src, b.mode, b.position, b.executed)
    && Cut(route, src.log, At(route, b.position)) == |src.log|
  }

  /** The executed set of a boundary is exactly what lies at or before its position. */
  ghost predicate ExactIds(route: Route, src: Source, b: Boundary) {
    forall i :: 0 <= i < |src.log| ==>
      (src.log[i].id in b.executed <==> At(route, src.log[i].position) <= At(route, b.position))
  }

  ghost predicate Sound(route: Route, s: Taking) {
    && GoodSource(route, s.source)
    && (s.session.alive && (s.stage.Locked? || s.stage.Positioned? || s.stage.Viewing?) ==> s.session.locked)
    && (s.session.alive && (s.stage.Positioned? || s.stage.Viewing?) ==>
          Exact(route, s.source, s.stage.boundary) && ExactIds(route, s.source, s.stage.boundary))
    && (s.session.alive && s.stage.Viewing? ==> s.stage.tables == s.source.states[|s.source.log|])
    && (s.stage.Returned? ==>
          GoodView(route, s.source, s.stage.view) && ExactIds(route, s.source, s.stage.view.boundary))
  }

  lemma {:induction false} ReportedIsExact(route: Route, src: Source, b: Boundary)
    requires GoodLog(route, src) && Reports(route, src, b)
    ensures Exact(route, src, b) && ExactIds(route, src, b)
  {
    CutIsUnique(route, src.log, src.end, |src.log|);
    forall id | id in b.executed
      ensures Behind(route, src, id, src.end)
    {
      if id !in src.purged {
        var i :| 0 <= i < |src.log| && src.log[i].id == id;
      }
    }
  }

  /** A boundary stays what it is while the source goes on. */
  lemma {:induction false} GrowExactIds(route: Route, src: Source, longer: Source, b: Boundary)
    requires GoodLog(route, src) && GoodLog(route, longer) && Extends(route, src, longer)
    requires SourceBoundary(route, src, b.mode, b.position, b.executed) && ExactIds(route, src, b)
    ensures ExactIds(route, longer, b)
  {
    GrowBoundary(route, src, longer, b.mode, b.position, b.executed);
    forall i | 0 <= i < |longer.log|
      ensures longer.log[i].id in b.executed <==> At(route, longer.log[i].position) <= At(route, b.position)
    {
      if i < |src.log| {
        assert longer.log[i] == src.log[i];
      } else if longer.log[i].id in b.executed {
        BehindMeaning(route, longer, longer.log[i].id, At(route, b.position), i);
      }
    }
  }

  lemma {:induction false} SourceMoveKeeps(route: Route, s: Taking, longer: Source)
    requires Sound(route, s) && GoodSource(route, longer) && Extends(route, s.source, longer)
    requires s.session.locked ==> longer.log == s.source.log && longer.states == s.source.states
    ensures Sound(route, s.(source := longer))
  {
    if s.stage.Returned? {
      var b := s.stage.view.boundary;
      GrowBoundary(route, s.source, longer, b.mode, b.position, b.executed);
      GrowExactIds(route, s.source, longer, b);
    } else if s.session.alive && (s.stage.Positioned? || s.stage.Viewing?) {
      var b := s.stage.boundary;
      GrowBoundary(route, s.source, longer, b.mode, b.position, b.executed);
      GrowExactIds(route, s.source, longer, b);
    }
  }

  lemma {:induction false} MoveKeeps(route: Route, scope: nat, s: Taking, m: Move, t: Taking)
    requires Sound(route, s) && Moves(route, scope, s, m, t)
    ensures Sound(route, t)
  {
    match m
    case CommitAtSource(txn, tables, end) =>
      LongerLog(route, s.source, SourceCommit(txn, tables, end), t.source);
      SourceMoveKeeps(route, s, t.source);
    case RotateAtSource(end) =>
      RotatedLog(route, s.source, t.source);
      SourceMoveKeeps(route, s, t.source);
    case ReadPosition(b) => ReportedIsExact(route, s.source, b);
    case _ =>
  }

  lemma {:induction false} TakingKeeps(route: Route, scope: nat, run: seq<Taking>, moves: seq<Move>, n: nat)
    requires IsTaking(route, scope, run, moves) && n < |run|
    ensures Sound(route, run[n])
  {
    if n > 0 {
      TakingKeeps(route, scope, run, moves, n - 1);
      assert MovesAt(route, scope, run, moves, n - 1);
      MoveKeeps(route, scope, run[n - 1], moves[n - 1], run[n]);
    }
  }

  /**
   Whatever happens in between, a reader that was handed out shows the source's tables at exactly the
   recorded position, and the recorded ids are exactly those of the transactions up to it.
   */
  lemma {:induction false} ReaderMatchesBoundary(route: Route, scope: nat, run: seq<Taking>, moves: seq<Move>, n: nat)
    requires IsTaking(route, scope, run, moves) && n < |run| && run[n].stage.Returned?
    ensures |run[n].source.states| == |run[n].source.log| + 1
    ensures
      var src, v := run[n].source, run[n].stage.view;
      && v.tables == TablesAt(route, src, v.boundary.position)
      && At(route, v.boundary.position) <= src.end
      && forall i :: 0 <= i < |src.log| ==>
           (src.log[i].id in v.boundary.executed <==> At(route, src.log[i].position) <= At(route, v.boundary.position))
  {
    TakingKeeps(route, scope, run, moves, n);
  }

  /** Which is what a worker may prepare the sink with. */
  lemma {:induction false} ReaderIsPrepared(route: Route, scope: nat, run: seq<Taking>, moves: seq<Move>, n: nat)
    requires IsTaking(route, scope, run, moves) && n < |run| && run[n].stage.Returned?
    ensures |run[n].source.states| == |run[n].source.log| + 1 && GoodView(route, run[n].source, run[n].stage.view)
  {
    TakingKeeps(route, scope, run, moves, n);
  }

  /** Once the lock connection has died before the release, no reader is ever handed out. */
  lemma {:induction false} DeadLockNeverReturns(route: Route, scope: nat, run: seq<Taking>, moves: seq<Move>,
                                                m: nat, n: nat)
    requires IsTaking(route, scope, run, moves) && m <= n < |run|
    requires !run[m].session.alive && !run[m].stage.Returned?
    ensures !run[n].session.alive && !run[n].stage.Returned?
    decreases n
  {
    if m < n {
      DeadLockNeverReturns(route, scope, run, moves, m, n - 1);
      assert MovesAt(route, scope, run, moves, n - 1);
    }
  }

  // ---------------------------------------------------------------- an undisturbed snapshot

  /** The state after opening the view and reading `pinned` tables. */
  function Pinned(src: Source, b: Boundary, pinned: nat): Taking
    requires |src.states| == |src.log| + 1
  {
    Taking(src, Session(true, true), Viewing(b, src.states[|src.log|], pinned))
  }

  lemma {:induction false} PinsTables(route: Route, src: Source, b: Boundary, scope: nat, run: seq<Taking>,
                                      moves: seq<Move>, k: nat)
    returns (longer: seq<Taking>, more: seq<Move>)
    requires |src.states| == |src.log| + 1 && k <= scope
    requires IsTaking(route, scope, run, moves) && run[|run| - 1] == Pinned(src, b, 0)
    ensures IsTaking(route, scope, longer, more) && longer[|longer| - 1] == Pinned(src, b, k)
    ensures run[0] == longer[0]
    decreases k
  {
    longer, more := run, moves;
    if k > 0 {
      longer, more := PinsTables(route, src, b, scope, run, moves, k - 1);
      longer, more := Extended(route, scope, longer, more, PinTable, Pinned(src, b, k));
    }
  }

  /** One more move. */
  lemma {:induction false} Extended(route: Route, scope: nat, run: seq<Taking>, moves: seq<Move>, m: Move, t: Taking)
    returns (longer: seq<Taking>, more: seq<Move>)
    requires IsTaking(route, scope, run, moves)
    requires |run[|moves|].source.states| == |run[|moves|].source.log| + 1 && Moves(route, scope, run[|moves|], m, t)
    ensures IsTaking(route, scope, longer, more) && longer == run + [t] && more == moves + [m]
  {
    longer, more := run + [t], moves + [m];
    forall n | 0 <= n < |more|
      ensures MovesAt(route, scope, longer, more, n)
    {
      assert n < |moves| ==> MovesAt(route, scope, run, moves, n);
    }
  }

  /** Left undisturbed, a snapshot of any number of tables is handed out, at what the source reports. */
  lemma {:induction false} UndisturbedSnapshotReturns(route: Route, src: Source, scope: nat, b: Boundary)
    returns (run: seq<Taking>, moves: seq<Move>)
    requires GoodSource(route, src) && Reports(route, src, b)
    ensures IsTaking(route, scope, run, moves) && run[0] == Taking(src, Session(true, false), Idle)
    ensures run[|run| - 1].stage == Returned(View(b, src.states[|src.log|]))
  {
    run, moves := [Taking(src, Session(true, false), Idle)], [];
    run, moves := Extended(route, scope, run, moves, AcquireLock, Taking(src, Session(true, true), Locked));
    run, moves := Extended(route, scope, run, moves, ReadPosition(b), Taking(src, Session(true, true), Positioned(b)));
    run, moves := Extended(route, scope, run, moves, OpenView, Pinned(src, b, 0));
    run, moves := PinsTables(route, src, b, scope, run, moves, scope);
    run, moves := Extended(route, scope, run, moves, ReleaseLock,
                           Taking(src, Session(true, false), Returned(View(b, src.states[|src.log|]))));
  }
}
