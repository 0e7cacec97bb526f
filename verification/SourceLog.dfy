/** The source: a log of committed transactions and the tables after each of them. */
module SourceLogs {
  import opened Outcomes
  import opened Cursor
  import opened Images
  import opened Rows
  import opened Simulation
  import opened Checkpoints

  /** A committed transaction after the route's projection; `changes` is empty when it was filtered. */
  datatype Txn = Txn(id: Id, cursor: SourceCursor, position: Position, changes: seq<RowChange>)

  /** `states[i]` are the tables before `log[i]`; `end` is the rank of the log's end; `purged` the ids before it. */
  datatype Source = Source(log: seq<Txn>, states: seq<Tables>, end: nat, purged: Gtids)

  /**
   One replication route. `kind` fixes how positions are ranked: LSNs, or binlog positions for both the
   binlog and the GTID mode. `initial` is what the sink's tables hold before the task writes to them.
   */
  datatype Route = Route(server: Server, owner: Owner, kind: Mode, prefix: seq<Byte>, initial: Tables)

  ghost predicate SameKind(route: Route, mode: Mode) {
    mode == PostgresqlLsn <==> route.kind == PostgresqlLsn
  }

  function At(route: Route, p: Position): nat {
    Rank(route.kind, p)
  }

  ghost predicate Placed(route: Route, p: Position) {
    InHistory(route.kind, route.prefix, p)
  }

  ghost predicate GoodTxn(route: Route, t: Txn) {
    && FilePosition(t.cursor) == Ok(t.position) && Placed(route, t.position)
    && t.id != [] && route.server.canonical(t.id) == Some({t.id})
  }

  ghost predicate Ordered(route: Route, log: seq<Txn>) {
    forall i, j :: 0 <= i < j < |log| ==> At(route, log[i].position) < At(route, log[j].position)
  }

  ghost predicate DistinctIds(log: seq<Txn>) {
    forall i, j :: 0 <= i < j < |log| ==> log[i].id != log[j].id
  }

  ghost predicate GoodLog(route: Route, src: Source) {
    && |src.states| == |src.log| + 1
    && (forall i {:trigger GoodTxn(route, src.log[i])} :: 0 <= i < |src.log| ==> GoodTxn(route, src.log[i]))
    && (forall i :: 0 <= i < |src.log| ==> At(route, src.log[i].position) <= src.end && src.log[i].id !in src.purged)
    && Ordered(route, src.log) && DistinctIds(src.log)
  }

  /** The tables before transaction `i` have unique keys, and its changes lead to the tables after it. */
  ghost predicate AppliesAt(route: Route, src: Source, i: nat)
    requires i < |src.log| && |src.states| == |src.log| + 1
  {
    && KeyedTables(route.server.schema, src.states[i])
    && LoggedAll(route.server.schema, src.states[i], src.log[i].changes, src.states[i + 1])
  }

  ghost predicate GoodTables(route: Route, src: Source)
    requires |src.states| == |src.log| + 1
  {
    && (forall i :: 0 <= i < |src.log| ==> AppliesAt(route, src, i))
    && KeyedTables(route.server.schema, src.states[|src.log|])
  }

  ghost predicate GoodSource(route: Route, src: Source) {
    GoodLog(route, src) && GoodTables(route, src)
  }

  lemma {:induction false} KeyedAt(route: Route, src: Source, n: nat)
    requires GoodSource(route, src) && n <= |src.log|
    ensures KeyedTables(route.server.schema, src.states[n])
  {
    assert n < |src.log| ==> AppliesAt(route, src, n);
  }

  /** How many transactions lie at or before a rank. */
  ghost function Cut(route: Route, log: seq<Txn>, rank: nat): (n: nat)
    ensures n <= |log|
  {
    if log == [] then 0
    else if At(route, log[|log| - 1].position) <= rank then |log|
    else Cut(route, log[..|log| - 1], rank)
  }

  lemma {:induction false} CutMeaning(route: Route, log: seq<Txn>, rank: nat)
    requires Ordered(route, log)
    ensures forall j :: 0 <= j < |log| ==> (At(route, log[j].position) <= rank <==> j < Cut(route, log, rank))
    decreases |log|
  {
    if log != [] && At(route, log[|log| - 1].position) > rank {
      CutMeaning(route, log[..|log| - 1], rank);
    }
  }

  lemma {:induction false} CutIsUnique(route: Route, log: seq<Txn>, rank: nat, n: nat)
    requires Ordered(route, log) && n <= |log|
    requires forall j :: 0 <= j < |log| ==> (At(route, log[j].position) <= rank <==> j < n)
    ensures Cut(route, log, rank) == n
  {
    CutMeaning(route, log, rank);
    var c := Cut(route, log, rank);
    assert c < |log| ==> (At(route, log[c].position) <= rank <==> c < n);
    assert n < |log| ==> (At(route, log[n].position) <= rank <==> n < c);
  }

  lemma {:induction false} CutAt(route: Route, log: seq<Txn>, i: nat)
    requires Ordered(route, log) && i < |log|
    ensures Cut(route, log, At(route, log[i].position)) == i + 1
  {
    CutIsUnique(route, log, At(route, log[i].position), i + 1);
  }

  // ---------------------------------------------------------------- growth

  ghost predicate Extends(route: Route, src: Source, longer: Source) {
    && src.log <= longer.log && src.states <= longer.states && src.end <= longer.end && src.purged == longer.purged
    && forall j :: |src.log| <= j < |longer.log| ==> At(route, longer.log[j].position) > src.end
  }

  lemma {:induction false} CutIsStable(route: Route, src: Source, longer: Source, rank: nat)
    requires GoodLog(route, src) && GoodLog(route, longer) && Extends(route, src, longer) && rank <= src.end
    ensures Cut(route, longer.log, rank) == Cut(route, src.log, rank)
  {
    CutMeaning(route, src.log, rank);
    CutIsUnique(route, longer.log, rank, Cut(route, src.log, rank));
  }

  /** Filtered transactions change no selected table. */
  lemma {:induction false} FilteredGap(route: Route, src: Source, a: nat, b: nat)
    requires GoodSource(route, src) && a <= b <= |src.log|
    requires forall j :: a <= j < b ==> src.log[j].changes == []
    ensures src.states[a] == src.states[b]
    decreases b - a
  {
    if a < b {
      assert AppliesAt(route, src, a);
      FilteredGap(route, src, a + 1, b);
    }
  }

  // ---------------------------------------------------------------- GTIDs behind a position

  /** The id belongs to a transaction at or before the rank. */
  ghost predicate Behind(route: Route, src: Source, id: Id, rank: nat) {
    id in src.purged || exists j :: 0 <= j < |src.log| && src.log[j].id == id && At(route, src.log[j].position) <= rank
  }

  ghost predicate AllBehind(route: Route, src: Source, gtids: Gtids, rank: nat) {
    forall id :: id in gtids ==> Behind(route, src, id, rank)
  }

  /** No id of a set behind a rank belongs to a transaction past it. */
  lemma {:induction false} BehindMeaning(route: Route, src: Source, id: Id, rank: nat, i: nat)
    requires DistinctIds(src.log) && i < |src.log| && src.log[i].id == id && id !in src.purged
    requires Behind(route, src, id, rank)
    ensures At(route, src.log[i].position) <= rank
  {
  }

  lemma {:induction false} BehindGrows(route: Route, src: Source, longer: Source, gtids: Gtids, r: nat, s: nat)
    requires AllBehind(route, src, gtids, r) && r <= s && Extends(route, src, longer)
    ensures AllBehind(route, longer, gtids, s)
  {
    forall id | id in gtids
      ensures Behind(route, longer, id, s)
    {
      assert Behind(route, src, id, r);
      if id !in src.purged {
        var j :| 0 <= j < |src.log| && src.log[j].id == id && At(route, src.log[j].position) <= r;
        assert longer.log[j] == src.log[j];
      }
    }
  }
}
