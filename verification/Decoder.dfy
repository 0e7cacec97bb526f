/**
 The binlog decoder: it buffers the rows of the transaction it is in and hands the transaction out at its
 commit. What it must hand out is said of the event sequence alone: the log is split at the events that
 end a block, and a block that was opened, begun and committed yields the captured rows inside it.
 */
module Decoders {
  import opened Outcomes
  import opened Images

  type FileName = string

  /** Where an event ends: the file being read and the position in the event's header. */
  datatype Place = Place(file: FileName, offset: nat)

  /** A decoded row change and the size of its encoding. */
  datatype Change = Change(row: RowChange, size: nat)

  datatype Body =
    | Rotate(file: FileName)
    | TableMap(id: nat, table: TableId, columns: nat, loads: bool)
    | GtidEvent(gtid: string)
    | AnonymousGtid
    | Begin
    | CommitQuery
    | Rollback
    | ControlDdl
    | OtherStatement
    | Xid
    | Rows(tableId: nat, changes: Option<seq<Change>>)
    | Ignored
    | Unsupported

  datatype Event = Event(offset: nat, body: Body)

  /** `capture` names the tables to decode; empty means all of them. */
  datatype Config = Config(file: FileName, rejectStatements: bool, capture: set<TableId>)

  /** A transaction's name: its GTID, or the place of the event that opened it. */
  datatype Name = Named(gtid: string) | Anonymous(at: Place)

  datatype Transaction = Transaction(name: Name, begin: Place, commit: Place, changes: seq<Change>)

  const MAX_TRANSACTION_BYTES := 64 * 1024 * 1024

  // ---------------------------------------------------------------- the log, split at commit points

  /** The file that the next event belongs to. */
  function FileAfter(c: Config, es: seq<Event>): FileName {
    if es == [] then c.file
    else
      var last := es[|es| - 1].body;
      if last.Rotate? then last.file else FileAfter(c, es[..|es| - 1])
  }

  function PlaceOf(c: Config, es: seq<Event>, k: nat): Place
    requires k < |es|
  {
    Place(FileAfter(c, es[..k]), es[k].offset)
  }

  predicate Captured(c: Config, table: TableId) {
    c.capture == {} || table in c.capture
  }

  /** The column count stored for each table id; a table that is not captured is stored without columns. */
  function TablesAfter(c: Config, es: seq<Event>): map<nat, nat> {
    if es == [] then map[]
    else
      var front, last := TablesAfter(c, es[..|es| - 1]), es[|es| - 1].body;
      if last.Rotate? then map[]
      else if last.TableMap? then front[last.id := if Captured(c, last.table) then last.columns else 0]
      else front
  }

  predicate IsSkipped(c: Config, tables: map<nat, nat>, id: nat) {
    id in tables && tables[id] == 0 && c.capture != {}
  }

  /** The captured row changes that event `k` carries. */
  function CapturedAt(c: Config, es: seq<Event>, k: nat): seq<Change>
    requires k < |es|
  {
    var e := es[k].body;
    if e.Rows? && e.changes.Some? && !IsSkipped(c, TablesAfter(c, es[..k]), e.tableId) then e.changes.value else []
  }

  /** The captured row changes of the events from `a` up to `b`, in event order. */
  function CapturedIn(c: Config, es: seq<Event>, a: nat, b: nat): seq<Change>
    requires a <= b <= |es|
    decreases b
  {
    if a == b then [] else CapturedIn(c, es, a, b - 1) + CapturedAt(c, es, b - 1)
  }

  /** Events that end a block, given the rows in the block so far. */
  predicate Ends(c: Config, e: Body, noRows: bool) {
    match e
    case Rotate(_) | CommitQuery | Xid | Rollback => true
    case ControlDdl => c.capture != {} || noRows
    case OtherStatement => noRows
    case _ => false
  }

  /** Where the block that the next event belongs to starts. */
  function BlockStart(c: Config, es: seq<Event>): (a: nat)
    ensures a <= |es|
  {
    if es == [] then 0
    else
      var n := |es| - 1;
      var a := BlockStart(c, es[..n]);
      if Ends(c, es[n].body, CapturedIn(c, es[..n], a, n) == []) then |es| else a
  }

  predicate Opens(e: Body) {
    e.GtidEvent? || e.AnonymousGtid? || e.Begin?
  }

  predicate Commits(c: Config, e: Body) {
    e.CommitQuery? || e.Xid? || (e.ControlDdl? && c.capture != {})
  }

  /** The first opening event at or after `a`, if any. */
  function FirstOpening(es: seq<Event>, a: nat): (k: nat)
    requires a <= |es|
    ensures a <= k <= |es|
    ensures forall j :: a <= j < k ==> !Opens(es[j].body)
    ensures k < |es| ==> Opens(es[k].body)
    decreases |es| - a
  {
    if a == |es| || Opens(es[a].body) then a else FirstOpening(es, a + 1)
  }

  function FirstBegin(es: seq<Event>, a: nat): (k: nat)
    requires a <= |es|
    ensures a <= k <= |es|
    ensures forall j :: a <= j < k ==> !es[j].body.Begin?
    ensures k < |es| ==> es[k].body.Begin?
    decreases |es| - a
  {
    if a == |es| || es[a].body.Begin? then a else FirstBegin(es, a + 1)
  }

  predicate IsOpen(c: Config, es: seq<Event>) {
    FirstOpening(es, BlockStart(c, es)) < |es|
  }

  predicate IsBegun(c: Config, es: seq<Event>) {
    FirstBegin(es, BlockStart(c, es)) < |es|
  }

  function BlockRows(c: Config, es: seq<Event>): seq<Change> {
    CapturedIn(c, es, BlockStart(c, es), |es|)
  }

  function BlockName(c: Config, es: seq<Event>): Name
    requires IsOpen(c, es)
  {
    var k := FirstOpening(es, BlockStart(c, es));
    if es[k].body.GtidEvent? then Named(es[k].body.gtid) else Anonymous(PlaceOf(c, es, k))
  }

  /** The BEGIN, or the opening event while there is none. */
  function BlockBegin(c: Config, es: seq<Event>): Place
    requires IsOpen(c, es)
  {
    var a := BlockStart(c, es);
    PlaceOf(c, es, if IsBegun(c, es) then FirstBegin(es, a) else FirstOpening(es, a))
  }

  /** What the last event of a log hands out: the block it commits, unless that is empty and everything is captured. */
  function EmittedLast(c: Config, es: seq<Event>): Option<Transaction>
    requires es != []
  {
    var n := |es| - 1;
    var block := es[..n];
    if !Commits(c, es[n].body) || !IsOpen(c, block) then None
    else if BlockRows(c, block) == [] && c.capture == {} then None
    else Some(Transaction(BlockName(c, block), BlockBegin(c, block), PlaceOf(c, es, n), BlockRows(c, block)))
  }

  function AsSeq<T>(x: Option<T>): seq<T> {
    if x.Some? then [x.value] else []
  }

  /** Everything a log hands out, in order. */
  function Emissions(c: Config, es: seq<Event>): seq<Transaction> {
    if es == [] then [] else Emissions(c, es[..|es| - 1]) + AsSeq(EmittedLast(c, es))
  }

  function TotalSize(changes: seq<Change>): nat {
    if changes == [] then 0 else TotalSize(changes[..|changes| - 1]) + changes[|changes| - 1].size
  }

  /** The events that a log may not go on with. */
  predicate Rejects(c: Config, es: seq<Event>, e: Body) {
    match e
    case Unsupported => true
    case Rotate(_) | GtidEvent(_) | AnonymousGtid => IsOpen(c, es)
    case TableMap(_, table, _, loads) => Captured(c, table) && !loads
    case Begin => IsBegun(c, es)
    case CommitQuery | Xid => IsOpen(c, es) && !IsBegun(c, es)
    case OtherStatement => c.rejectStatements
    case Rows(id, changes) =>
      || id !in TablesAfter(c, es)
      || (!IsSkipped(c, TablesAfter(c, es), id) &&
          (changes.None? || !IsOpen(c, es) || !IsBegun(c, es)
           || TotalSize(BlockRows(c, es)) + TotalSize(changes.value) > MAX_TRANSACTION_BYTES))
    case _ => false
  }

  /** No event of the log was rejected. */
  ghost predicate Accepted(c: Config, es: seq<Event>) {
    forall k {:trigger Rejects(c, es[..k], es[k].body)} :: 0 <= k < |es| ==> !Rejects(c, es[..k], es[k].body)
  }

  // ---------------------------------------------------------------- what the split means

  lemma {:induction false} CapturedPrefix(c: Config, es: seq<Event>, e: Event, a: nat, b: nat)
    requires a <= b <= |es|
    ensures CapturedIn(c, es + [e], a, b) == CapturedIn(c, es, a, b)
    decreases b
  {
    if a < b {
      CapturedPrefix(c, es, e, a, b - 1);
      assert (es + [e])[..b - 1] == es[..b - 1];
    }
  }

  /** One more event continues the block, or ends it. */
  lemma {:induction false} NextBlock(c: Config, es: seq<Event>, e: Event)
    ensures BlockStart(c, es + [e]) == if Ends(c, e.body, BlockRows(c, es) == []) then |es| + 1 else BlockStart(c, es)
    ensures FileAfter(c, es + [e]) == if e.body.Rotate? then e.body.file else FileAfter(c, es)
  {
    assert (es + [e])[..|es|] == es;
  }

  lemma {:induction false} NextRows(c: Config, es: seq<Event>, e: Event)
    requires !Ends(c, e.body, BlockRows(c, es) == [])
    ensures BlockRows(c, es + [e]) == BlockRows(c, es) + CapturedAt(c, es + [e], |es|)
  {
    NextBlock(c, es, e);
    CapturedPrefix(c, es, e, BlockStart(c, es), |es|);
  }

  lemma {:induction false} FirstOpeningIs(es: seq<Event>, a: nat, k: nat)
    requires a <= k <= |es| && (forall j :: a <= j < k ==> !Opens(es[j].body)) && (k < |es| ==> Opens(es[k].body))
    ensures FirstOpening(es, a) == k
    decreases k - a
  {
    if a < k {
      FirstOpeningIs(es, a + 1, k);
    }
  }

  lemma {:induction false} FirstBeginIs(es: seq<Event>, a: nat, k: nat)
    requires a <= k <= |es| && (forall j :: a <= j < k ==> !es[j].body.Begin?) && (k < |es| ==> es[k].body.Begin?)
    ensures FirstBegin(es, a) == k
    decreases k - a
  {
    if a < k {
      FirstBeginIs(es, a + 1, k);
    }
  }

  lemma {:induction false} NextFirsts(es: seq<Event>, e: Event, a: nat)
    requires a <= |es|
    ensures
      var k := FirstOpening(es, a);
      FirstOpening(es + [e], a) == if k < |es| || Opens(e.body) then k else |es| + 1
    ensures
      var k := FirstBegin(es, a);
      FirstBegin(es + [e], a) == if k < |es| || e.body.Begin? then k else |es| + 1
  {
    var longer := es + [e];
    var k, b := FirstOpening(es, a), FirstBegin(es, a);
    assert longer[|es|] == e && forall j :: a <= j < |es| ==> longer[j] == es[j];
    FirstOpeningIs(longer, a, if k < |es| || Opens(e.body) then k else |es| + 1);
    FirstBeginIs(longer, a, if b < |es| || e.body.Begin? then b else |es| + 1);
  }

  lemma {:induction false} NextPlace(c: Config, es: seq<Event>, e: Event, k: nat)
    requires k <= |es|
    ensures PlaceOf(c, es + [e], k) == if k < |es| then PlaceOf(c, es, k) else Place(FileAfter(c, es), e.offset)
  {
    assert (es + [e])[..k] == es[..k];
    assert es[..|es|] == es;
  }

  // ---------------------------------------------------------------- the decoder

  datatype Pending = Pending(name: Name, begin: Place, began: bool, changes: seq<Change>, bytes: nat)

  /** The buffered transaction that a log leaves open. */
  function PendingAfter(c: Config, es: seq<Event>): Option<Pending> {
    if !IsOpen(c, es) then None
    else
      Some(Pending(BlockName(c, es), BlockBegin(c, es), IsBegun(c, es), BlockRows(c, es), TotalSize(BlockRows(c, es))))
  }

  // How one accepted event changes the buffered transaction.

  lemma {:induction false} AcceptedPrefix(c: Config, es: seq<Event>, n: nat)
    requires Accepted(c, es) && n <= |es|
    ensures Accepted(c, es[..n])
  {
    forall k | 0 <= k < n
      ensures !Rejects(c, es[..n][..k], es[..n][k].body)
    {
      assert es[..n][..k] == es[..k];
    }
  }

  lemma {:induction false} AcceptedNext(c: Config, es: seq<Event>, e: Event)
    requires Accepted(c, es) && !Rejects(c, es, e.body)
    ensures Accepted(c, es + [e])
  {
    var longer := es + [e];
    forall k | 0 <= k < |longer|
      ensures !Rejects(c, longer[..k], longer[k].body)
    {
      assert k < |es| ==> longer[..k] == es[..k] && longer[k] == es[k];
      assert k == |es| ==> longer[..k] == es && longer[k] == e;
    }
  }

  lemma {:induction false} BegunIsOpen(es: seq<Event>, a: nat)
    requires a <= |es|
    ensures FirstOpening(es, a) <= FirstBegin(es, a)
    decreases |es| - a
  {
    if a < |es| && !Opens(es[a].body) {
      BegunIsOpen(es, a + 1);
    }
  }

  lemma {:induction false} CapturedNext(c: Config, es: seq<Event>, e: Event)
    ensures
      CapturedAt(c, es + [e], |es|)
      == if e.body.Rows? && e.body.changes.Some? && !IsSkipped(c, TablesAfter(c, es), e.body.tableId)
         then e.body.changes.value else []
  {
    assert (es + [e])[..|es|] == es;
  }

  lemma {:induction false} TotalSizeAppends(a: seq<Change>, b: seq<Change>)
    ensures TotalSize(a + b) == TotalSize(a) + TotalSize(b)
    decreases |b|
  {
    if b == [] {
      assert a + b == a;
    } else {
      assert (a + b)[..|a + b| - 1] == a + b[..|b| - 1];
      TotalSizeAppends(a, b[..|b| - 1]);
    }
  }

  /** Rows are buffered only inside an opened block, and never past the limit. */
  lemma {:induction false} RowsNeedOpening(c: Config, es: seq<Event>)
    requires Accepted(c, es)
    ensures BlockRows(c, es) != [] ==> IsOpen(c, es)
    ensures TotalSize(BlockRows(c, es)) <= MAX_TRANSACTION_BYTES
    decreases |es|
  {
    if es != [] {
      var n := |es| - 1;
      var front, e := es[..n], es[n];
      assert es == front + [e];
      AcceptedPrefix(c, es, n);
      RowsNeedOpening(c, front);
      NextBlock(c, front, e);
      if !Ends(c, e.body, BlockRows(c, front) == []) {
        NextRows(c, front, e);
        CapturedNext(c, front, e);
        NextFirsts(front, e, BlockStart(c, front));
        assert !Rejects(c, es[..n], es[n].body);
        TotalSizeAppends(BlockRows(c, front), CapturedAt(c, es, n));
      }
    }
  }

  lemma {:induction false} EndedBlock(c: Config, es: seq<Event>, e: Event)
    requires Ends(c, e.body, BlockRows(c, es) == [])
    ensures PendingAfter(c, es + [e]) == None
  {
    NextBlock(c, es, e);
  }

  lemma {:induction false} KeptBlock(c: Config, es: seq<Event>, e: Event)
    requires !Ends(c, e.body, BlockRows(c, es) == []) && !Opens(e.body)
    ensures IsOpen(c, es + [e]) == IsOpen(c, es) && IsBegun(c, es + [e]) == IsBegun(c, es)
    ensures IsOpen(c, es) ==> BlockName(c, es + [e]) == BlockName(c, es) && BlockBegin(c, es + [e]) == BlockBegin(c, es)
  {
    var a := BlockStart(c, es);
    NextBlock(c, es, e);
    NextFirsts(es, e, a);
    NextPlace(c, es, e, FirstOpening(es, a));
    NextPlace(c, es, e, FirstBegin(es, a));
    BegunIsOpen(es, a);
  }

  lemma {:induction false} UnchangedPending(c: Config, es: seq<Event>, e: Event)
    requires !Ends(c, e.body, BlockRows(c, es) == []) && !Opens(e.body) && CapturedAt(c, es + [e], |es|) == []
    ensures PendingAfter(c, es + [e]) == PendingAfter(c, es)
  {
    KeptBlock(c, es, e);
    NextRows(c, es, e);
    assert BlockRows(c, es) + [] == BlockRows(c, es);
  }

  lemma {:induction false} FilledPending(c: Config, es: seq<Event>, e: Event, p: Pending, rows: seq<Change>)
    requires PendingAfter(c, es) == Some(p) && e.body.Rows? && e.body.changes == Some(rows)
    requires !IsSkipped(c, TablesAfter(c, es), e.body.tableId)
    ensures PendingAfter(c, es + [e]) == Some(p.(changes := p.changes + rows, bytes := p.bytes + TotalSize(rows)))
  {
    CapturedNext(c, es, e);
    KeptBlock(c, es, e);
    NextRows(c, es, e);
    TotalSizeAppends(p.changes, rows);
  }

  lemma {:induction false} PendingWithinLimit(c: Config, es: seq<Event>)
    requires Accepted(c, es) && PendingAfter(c, es).Some?
    ensures PendingAfter(c, es).value.bytes <= MAX_TRANSACTION_BYTES
  {
    RowsNeedOpening(c, es);
  }

  /** Captured rows inside a begun transaction are refused only for their size. */
  lemma {:induction false} RowsReject(c: Config, es: seq<Event>, e: Body, p: Pending)
    requires PendingAfter(c, es) == Some(p) && p.began && e.Rows? && e.changes.Some?
    requires e.tableId in TablesAfter(c, es) && !IsSkipped(c, TablesAfter(c, es), e.tableId)
    ensures Rejects(c, es, e) <==> p.bytes + TotalSize(e.changes.value) > MAX_TRANSACTION_BYTES
  {
  }

  lemma {:induction false} NextPrefix(front: seq<Change>, rows: seq<Change>, n: nat)
    requires n < |rows|
    ensures TotalSize(rows[..n + 1]) == TotalSize(rows[..n]) + rows[n].size
    ensures (front + rows[..n]) + [rows[n]] == front + rows[..n + 1]
  {
    assert rows[..n + 1][..n] == rows[..n] && rows[..n + 1] == rows[..n] + [rows[n]];
  }

  lemma {:induction false} OpenedPending(c: Config, es: seq<Event>, e: Event)
    requires Accepted(c, es) && !IsOpen(c, es) && Opens(e.body)
    ensures
      var place := Place(FileAfter(c, es), e.offset);
      var name := if e.body.GtidEvent? then Named(e.body.gtid) else Anonymous(place);
      PendingAfter(c, es + [e]) == Some(Pending(name, place, e.body.Begin?, [], 0))
  {
    var a := BlockStart(c, es);
    RowsNeedOpening(c, es);
    BegunIsOpen(es, a);
    NextBlock(c, es, e);
    NextRows(c, es, e);
    NextFirsts(es, e, a);
    NextPlace(c, es, e, |es|);
    CapturedNext(c, es, e);
  }

  lemma {:induction false} BegunPending(c: Config, es: seq<Event>, e: Event, p: Pending)
    requires PendingAfter(c, es) == Some(p) && !p.began && e.body.Begin?
    ensures PendingAfter(c, es + [e]) == Some(p.(begin := Place(FileAfter(c, es), e.offset), began := true))
  {
    var a := BlockStart(c, es);
    NextBlock(c, es, e);
    NextRows(c, es, e);
    NextFirsts(es, e, a);
    NextPlace(c, es, e, |es|);
    NextPlace(c, es, e, FirstOpening(es, a));
    CapturedNext(c, es, e);
    assert BlockRows(c, es) + [] == BlockRows(c, es);
    assert (es + [e])[FirstOpening(es, a)] == es[FirstOpening(es, a)];
  }

  lemma {:induction false} NextTables(c: Config, es: seq<Event>, e: Event)
    ensures TablesAfter(c, es + [e])
            == if e.body.Rotate? then map[]
               else if e.body.TableMap?
               then TablesAfter(c, es)[e.body.id := if Captured(c, e.body.table) then e.body.columns else 0]
               else TablesAfter(c, es)
  {
    assert (es + [e])[..|es|] == es;
  }

  lemma {:induction false} NextEmission(c: Config, es: seq<Event>, e: Event)
    ensures
      var place := Place(FileAfter(c, es), e.offset);
      var p := PendingAfter(c, es);
      EmittedLast(c, es + [e])
      == if Commits(c, e.body) && p.Some? && (p.value.changes != [] || c.capture != {})
         then Some(Transaction(p.value.name, p.value.begin, place, p.value.changes)) else None
  {
    assert (es + [e])[..|es|] == es;
    NextPlace(c, es, e, |es|);
  }

  lemma {:induction false} EmissionsGrow(c: Config, es: seq<Event>, e: Event)
    ensures Emissions(c, es + [e]) == Emissions(c, es) + AsSeq(EmittedLast(c, es + [e]))
  {
    assert (es + [e])[..|es|] == es;
  }

  class Decoder {
    const config: Config
    var file: FileName
    var tables: map<nat, nat>
    var pending: Option<Pending>
    ghost var seen: seq<Event>

    ghost predicate Valid()
      reads this
    {
      && Accepted(config, seen)
      && file == FileAfter(config, seen)
      && tables == TablesAfter(config, seen)
      && pending == PendingAfter(config, seen)
    }

    constructor (config: Config)
      ensures Valid() && this.config == config && seen == []
    {
      this.config, file, tables, pending, seen := config, config.file, map[], None, [];
    }

    method StoreTableMap(e: Event) returns (ok: bool)
      requires Valid() && e.body.TableMap?
      modifies this`tables
      ensures ok <==> !Rejects(config, seen, e.body)
      ensures ok ==> tables == TablesAfter(config, seen + [e]) && pending == PendingAfter(config, seen + [e])
    {
      NextTables(config, seen, e);
      CapturedNext(config, seen, e);
      UnchangedPending(config, seen, e);
      if config.capture != {} && e.body.table !in config.capture {
        tables := tables[e.body.id := 0];
        return true;
      }
      if !e.body.loads {
        return false;
      }
      tables := tables[e.body.id := e.body.columns];
      return true;
    }

    method StartTransaction(e: Event, name: Name, place: Place) returns (ok: bool)
      requires Valid() && (e.body.GtidEvent? || e.body.AnonymousGtid?)
      requires place == Place(file, e.offset)
      requires name == if e.body.GtidEvent? then Named(e.body.gtid) else Anonymous(place)
      modifies this`pending
      ensures ok <==> !Rejects(config, seen, e.body)
      ensures ok ==> pending == PendingAfter(config, seen + [e])
    {
      if pending.Some? {
        return false;
      }
      OpenedPending(config, seen, e);
      pending := Some(Pending(name, place, false, [], 0));
      return true;
    }

    method HandleBegin(e: Event, place: Place) returns (ok: bool)
      requires Valid() && e.body.Begin? && place == Place(file, e.offset)
      modifies this`pending
      ensures ok <==> !Rejects(config, seen, e.body)
      ensures ok ==> pending == PendingAfter(config, seen + [e])
    {
      BegunIsOpen(seen, BlockStart(config, seen));
      if pending.None? {
        OpenedPending(config, seen, e);
        pending := Some(Pending(Anonymous(place), place, true, [], 0));
        return true;
      }
      if pending.value.began {
        return false;
      }
      BegunPending(config, seen, e, pending.value);
      pending := Some(pending.value.(begin := place, began := true));
      return true;
    }

    /** A statement without rows drops a transaction that has none. */
    method DropEmpty(e: Event)
      requires Valid() && (e.body.OtherStatement? || (e.body.ControlDdl? && config.capture == {}))
      modifies this`pending
      ensures pending == PendingAfter(config, seen + [e])
    {
      if pending.Some? && pending.value.changes == [] {
        EndedBlock(config, seen, e);
        pending := None;
      } else if pending.None? {
        RowsNeedOpening(config, seen);
        EndedBlock(config, seen, e);
      } else {
        CapturedNext(config, seen, e);
        UnchangedPending(config, seen, e);
      }
    }

    method FinishTransaction(e: Event, place: Place, began: bool) returns (r: Result<Option<Transaction>, ()>)
      requires Valid() && Commits(config, e.body) && place == Place(file, e.offset)
      requires began <==> pending.Some? && (pending.value.began || e.body.ControlDdl?)
      modifies this`pending
      ensures r.Err? <==> Rejects(config, seen, e.body)
      ensures r.Ok? ==> pending == PendingAfter(config, seen + [e]) && r.value == EmittedLast(config, seen + [e])
    {
      EndedBlock(config, seen, e);
      NextEmission(config, seen, e);
      var transaction := pending;
      pending := None;
      if transaction.None? {
        return Ok(None);
      }
      var p := transaction.value;
      if !began {
        return Err(());
      }
      if p.changes == [] && config.capture == {} {
        return Ok(None);
      }
      return Ok(Some(Transaction(p.name, p.begin, place, p.changes)));
    }

    method HandleQuery(e: Event, place: Place) returns (r: Result<Option<Transaction>, ()>)
      requires Valid() && place == Place(file, e.offset)
      requires e.body.Begin? || e.body.CommitQuery? || e.body.Rollback? || e.body.ControlDdl? || e.body.OtherStatement?
      modifies this`pending
      ensures r.Err? <==> Rejects(config, seen, e.body)
      ensures r.Ok? ==> pending == PendingAfter(config, seen + [e]) && r.value == EmittedLast(config, seen + [e])
    {
      NextEmission(config, seen, e);
      if e.body.Begin? {
        var ok := HandleBegin(e, place);
        return if ok then Ok(None) else Err(());
      }
      if e.body.CommitQuery? {
        r := FinishTransaction(e, place, pending.Some? && pending.value.began);
        return;
      }
      if e.body.Rollback? {
        EndedBlock(config, seen, e);
        pending := None;
        return Ok(None);
      }
      if config.rejectStatements && !e.body.ControlDdl? {
        return Err(());
      }
      if e.body.ControlDdl? && config.capture != {} {
        // The source marks the buffered transaction as begun here.
        r := FinishTransaction(e, place, pending.Some?);
        return;
      }
      DropEmpty(e);
      return Ok(None);
    }

    /** Appends a change within the byte limit. */
    method Push(change: Change) returns (ok: bool)
      requires pending.Some?
      modifies this`pending
      ensures ok <==> change.size <= MAX_TRANSACTION_BYTES - old(pending).value.bytes
      ensures
        var p := old(pending).value;
        pending
        == if ok then Some(p.(changes := p.changes + [change], bytes := p.bytes + change.size)) else old(pending)
    {
      var p := pending.value;
      if change.size > MAX_TRANSACTION_BYTES - p.bytes {
        return false;
      }
      pending := Some(p.(changes := p.changes + [change], bytes := p.bytes + change.size));
      return true;
    }

    /** Appends the rows one by one; it stops at the first that does not fit. */
    method PushAll(rows: seq<Change>) returns (ok: bool)
      requires pending.Some? && pending.value.bytes <= MAX_TRANSACTION_BYTES
      modifies this`pending
      ensures
        var p := old(pending).value;
        && (ok <==> p.bytes + TotalSize(rows) <= MAX_TRANSACTION_BYTES)
        && (ok ==> pending == Some(p.(changes := p.changes + rows, bytes := p.bytes + TotalSize(rows))))
    {
      ghost var p := pending.value;
      assert p.changes + [] == p.changes;
      for n := 0 to |rows|
        invariant pending == Some(p.(changes := p.changes + rows[..n], bytes := p.bytes + TotalSize(rows[..n])))
        invariant p.bytes + TotalSize(rows[..n]) <= MAX_TRANSACTION_BYTES
      {
        NextPrefix(p.changes, rows, n);
        var pushed := Push(rows[n]);
        if !pushed {
          PrefixSize(rows, n + 1);
          return false;
        }
      }
      assert rows[..|rows|] == rows;
      return true;
    }

    method AppendRows(e: Event) returns (ok: bool)
      requires Valid() && e.body.Rows? && e.body.changes.Some? && pending.Some? && pending.value.began
      requires e.body.tableId in tables && !IsSkipped(config, tables, e.body.tableId)
      modifies this`pending
      ensures ok <==> !Rejects(config, seen, e.body)
      ensures ok ==> pending == PendingAfter(config, seen + [e])
    {
      PendingWithinLimit(config, seen);
      RowsReject(config, seen, e.body, pending.value);
      FilledPending(config, seen, e, pending.value, e.body.changes.value);
      ok := PushAll(e.body.changes.value);
    }

    method HandleRows(e: Event) returns (ok: bool)
      requires Valid() && e.body.Rows?
      modifies this`pending
      ensures ok <==> !Rejects(config, seen, e.body)
      ensures ok ==> pending == PendingAfter(config, seen + [e])
    {
      CapturedNext(config, seen, e);
      if e.body.tableId !in tables {
        return false;
      }
      if tables[e.body.tableId] == 0 && config.capture != {} {
        UnchangedPending(config, seen, e);
        return true;
      }
      if e.body.changes.None? || pending.None? || !pending.value.began {
        return false;
      }
      ok := AppendRows(e);
    }

    /** Accepts exactly the events that may follow, and hands out exactly what the log commits with them. */
    method Decode(e: Event) returns (r: Result<Option<Transaction>, ()>)
      requires Valid()
      modifies this
      ensures r.Err? <==> Rejects(config, old(seen), e.body)
      ensures r.Ok? ==> Valid() && seen == old(seen) + [e] && r.value == EmittedLast(config, seen)
      ensures r.Err? ==> seen == old(seen)
    {
      var place := Place(file, e.offset);
      NextBlock(config, seen, e);
      NextTables(config, seen, e);
      NextEmission(config, seen, e);
      var ok := true;
      r := Ok(None);
      match e.body {
        case Unsupported => ok := false;
        case Rotate(name) =>
          EndedBlock(config, seen, e);
          ok := pending.None?;
          pending, file, tables := None, name, map[];
        case TableMap(_, _, _, _) => ok := StoreTableMap(e);
        case GtidEvent(gtid) => ok := StartTransaction(e, Named(gtid), place);
        case AnonymousGtid => ok := StartTransaction(e, Anonymous(place), place);
        case Rows(_, _) => ok := HandleRows(e);
        case Xid => r := FinishTransaction(e, place, pending.Some? && pending.value.began);
        case Ignored => UnchangedPending(config, seen, e);
        case _ => r := HandleQuery(e, place);
      }
      if !ok {
        return Err(());
      }
      if r.Ok? {
        AcceptedNext(config, seen, e);
        seen := seen + [e];
      }
    }

    /** A transaction still buffered at the end of the stream is an error. */
    method EnsureComplete() returns (ok: bool)
      requires Valid()
      ensures ok <==> !IsOpen(config, seen)
    {
      return pending.None?;
    }
  }

  lemma {:induction false} PrefixSize(changes: seq<Change>, n: nat)
    requires n <= |changes|
    ensures TotalSize(changes[..n]) <= TotalSize(changes)
    decreases |changes|
  {
    if n == |changes| {
      assert changes[..n] == changes;
    } else {
      PrefixSize(changes[..|changes| - 1], n);
      assert changes[..|changes| - 1][..n] == changes[..n];
    }
  }

  // ---------------------------------------------------------------- blocks

  predicate EndsAlways(e: Body) {
    e.Rotate? || e.CommitQuery? || e.Xid? || e.Rollback?
  }

  lemma {:induction false} NextStart(c: Config, es: seq<Event>, n: nat)
    requires n < |es|
    ensures BlockStart(c, es[..n + 1])
            == if Ends(c, es[n].body, BlockRows(c, es[..n]) == []) then n + 1 else BlockStart(c, es[..n])
  {
    assert es[..n + 1] == es[..n] + [es[n]];
    NextBlock(c, es[..n], es[n]);
  }

  lemma {:induction false} NextStartAlways(c: Config, es: seq<Event>, n: nat)
    requires n < |es|
    ensures EndsAlways(es[n].body) || Commits(c, es[n].body) ==> BlockStart(c, es[..n + 1]) == n + 1
    ensures BlockStart(c, es[..n + 1]) == n + 1 || BlockStart(c, es[..n + 1]) == BlockStart(c, es[..n])
  {
    NextStart(c, es, n);
  }

  /** Whatever is committed, rolled back or cut off before an event is not in the event's block. */
  lemma {:induction false} EndedStaysOut(c: Config, es: seq<Event>, m: nat, n: nat)
    requires m < n <= |es| && (EndsAlways(es[m].body) || Commits(c, es[m].body))
    ensures BlockStart(c, es[..n]) > m
    decreases n
  {
    NextStartAlways(c, es, n - 1);
    if m < n - 1 {
      EndedStaysOut(c, es, m, n - 1);
    }
  }

  /**
   What is handed out at event `n`: the block of `n` was opened at some event, nothing in it commits, rolls
   back or rotates, and the changes are exactly its captured rows in event order.
   */
  lemma {:induction false} EmissionMeaning(c: Config, es: seq<Event>, n: nat)
    requires n < |es| && Accepted(c, es) && EmittedLast(c, es[..n + 1]).Some?
    ensures
      var t, a := EmittedLast(c, es[..n + 1]).value, BlockStart(c, es[..n]);
      && Commits(c, es[n].body) && t.commit == PlaceOf(c, es, n)
      && a <= n && (exists s :: a <= s < n && Opens(es[s].body))
      && (forall k :: a <= k < n ==> !EndsAlways(es[k].body) && !Commits(c, es[k].body))
      && t.changes == CapturedIn(c, es, a, n)
      && TotalSize(t.changes) <= MAX_TRANSACTION_BYTES
  {
    var block, a := es[..n], BlockStart(c, es[..n]);
    assert es[..n + 1][..n] == block && es[..n + 1][n] == es[n];
    var s := FirstOpening(block, a);
    assert Opens(es[s].body);
    CapturedOfPrefix(c, es, n, a, n);
    AcceptedPrefix(c, es, n);
    RowsNeedOpening(c, block);
    forall k | a <= k < n
      ensures !EndsAlways(es[k].body) && !Commits(c, es[k].body)
    {
      if EndsAlways(es[k].body) || Commits(c, es[k].body) {
        EndedStaysOut(c, es, k, n);
      }
    }
  }

  lemma {:induction false} CapturedOfPrefix(c: Config, es: seq<Event>, n: nat, a: nat, b: nat)
    requires a <= b <= n <= |es|
    ensures CapturedIn(c, es[..n], a, b) == CapturedIn(c, es, a, b)
    decreases b
  {
    if a < b {
      CapturedOfPrefix(c, es, n, a, b - 1);
      assert es[..n][..b - 1] == es[..b - 1];
    }
  }

  /** Two transactions handed out one after the other come from disjoint blocks, in order. */
  lemma {:induction false} BlocksAreDisjoint(c: Config, es: seq<Event>, m: nat, n: nat)
    requires m < n < |es| && EmittedLast(c, es[..m + 1]).Some? && EmittedLast(c, es[..n + 1]).Some?
    ensures BlockStart(c, es[..m]) <= m < BlockStart(c, es[..n]) <= n
  {
    assert es[..m + 1][m] == es[m];
    EndedStaysOut(c, es, m, n);
  }

  /** An opened block that nothing ends before its commit is handed out there, unless there is nothing in it. */
  lemma {:induction false} CommittedIsEmitted(c: Config, es: seq<Event>, s: nat, n: nat)
    requires s < n < |es| && Opens(es[s].body) && Commits(c, es[n].body)
    requires forall k :: s < k < n ==> !Ends(c, es[k].body, BlockRows(c, es[..k]) == [])
    ensures EmittedLast(c, es[..n + 1]).Some? <==> BlockRows(c, es[..n]) != [] || c.capture != {}
  {
    StartStays(c, es, s, n);
    assert es[..n + 1][..n] == es[..n] && es[..n + 1][n] == es[n] && es[..n][s] == es[s];
  }

  lemma {:induction false} StartStays(c: Config, es: seq<Event>, s: nat, n: nat)
    requires s < n <= |es| && Opens(es[s].body)
    requires forall k :: s < k < n ==> !Ends(c, es[k].body, BlockRows(c, es[..k]) == [])
    ensures BlockStart(c, es[..n]) <= s
    decreases n
  {
    NextStart(c, es, n - 1);
    if s < n - 1 {
      StartStays(c, es, s, n - 1);
    } else {
      assert !Ends(c, es[s].body, true) && !Ends(c, es[s].body, false);
    }
  }

  // ---------------------------------------------------------------- the stream

  datatype Item = Arrived(event: Event) | Broken

  /** What a stream reads: items until the connection ends or the event limit, and transactions must validate. */
  datatype Feed = Feed(config: Config, native: seq<Item>, maxEvents: Option<nat>, valid: Transaction -> bool)

  function Limit(f: Feed): nat {
    if f.maxEvents.Some? && f.maxEvents.value < |f.native| then f.maxEvents.value else |f.native|
  }

  predicate Passes(f: Feed, t: Transaction) {
    t.changes != [] ==> f.valid(t)
  }

  ghost predicate AllPass(f: Feed, ts: seq<Transaction>) {
    forall i :: 0 <= i < |ts| ==> Passes(f, ts[i])
  }

  ghost predicate Arrive(f: Feed, es: seq<Event>) {
    |es| <= Limit(f) && forall i :: 0 <= i < |es| ==> f.native[i] == Arrived(es[i])
  }

  /** The first events of a feed, all of them accepted, and every transaction they complete valid. */
  ghost predicate GoodStart(f: Feed, es: seq<Event>) {
    && Arrive(f, es)
    && Accepted(f.config, es)
    && AllPass(f, Emissions(f.config, es))
  }

  /** The item does not arrive, is not accepted, or completes a transaction that is not valid. */
  ghost predicate Refused(f: Feed, es: seq<Event>, item: Item) {
    || item.Broken?
    || Rejects(f.config, es, item.event.body)
    || (EmittedLast(f.config, es + [item.event]).Some? && !Passes(f, EmittedLast(f.config, es + [item.event]).value))
  }

  lemma {:induction false} AcceptedGrows(c: Config, es: seq<Event>, e: Event)
    requires Accepted(c, es) && !Rejects(c, es, e.body)
    ensures Accepted(c, es + [e])
  {
    forall k | 0 <= k < |es| + 1
      ensures !Rejects(c, (es + [e])[..k], (es + [e])[k].body)
    {
      assert (es + [e])[..k] == es[..k];
      assert es[..|es|] == es;
    }
  }

  lemma {:induction false} PassGrows(f: Feed, ts: seq<Transaction>, t: Option<Transaction>)
    requires AllPass(f, ts) && (t.Some? ==> Passes(f, t.value))
    ensures AllPass(f, ts + AsSeq(t))
  {
  }

  lemma {:induction false} ArriveGrows(f: Feed, es: seq<Event>, e: Event)
    requires Arrive(f, es) && |es| < Limit(f) && f.native[|es|] == Arrived(e)
    ensures Arrive(f, es + [e])
  {
  }

  lemma {:induction false} StartGrows(f: Feed, es: seq<Event>, e: Event)
    requires GoodStart(f, es) && |es| < Limit(f) && f.native[|es|] == Arrived(e) && !Refused(f, es, f.native[|es|])
    ensures GoodStart(f, es + [e])
    ensures Emissions(f.config, es + [e]) == Emissions(f.config, es) + AsSeq(EmittedLast(f.config, es + [e]))
  {
    AcceptedGrows(f.config, es, e);
    EmissionsGrow(f.config, es, e);
    ArriveGrows(f, es, e);
    PassGrows(f, Emissions(f.config, es), EmittedLast(f.config, es + [e]));
  }

  /** No item of a good start is refused, so a feed that is not stopped ends in one place only. */
  lemma {:induction false} NothingRefusedInside(f: Feed, es: seq<Event>, n: nat)
    requires GoodStart(f, es) && n < |es|
    ensures !Refused(f, es[..n], f.native[n])
  {
    assert es[..n + 1] == es[..n] + [es[n]];
    EmissionsOfPrefix(f.config, es, n + 1);
    EmissionsGrow(f.config, es[..n], es[n]);
    LastPasses(f, Emissions(f.config, es), Emissions(f.config, es[..n]), EmittedLast(f.config, es[..n + 1]));
  }

  lemma {:induction false} LastPasses(f: Feed, ts: seq<Transaction>, front: seq<Transaction>, t: Option<Transaction>)
    requires AllPass(f, ts) && front + AsSeq(t) <= ts
    ensures t.Some? ==> Passes(f, t.value)
  {
    if t.Some? {
      assert ts[|front|] == t.value;
    }
  }

  /** By the decoder's answer, the next event is refused or the start goes on. */
  lemma {:induction false} ReceivedNext(f: Feed, es: seq<Event>, e: Event, decoded: Result<Option<Transaction>, ()>)
    requires GoodStart(f, es) && |es| < Limit(f) && f.native[|es|] == Arrived(e)
    requires decoded.Err? <==> Rejects(f.config, es, e.body)
    requires decoded.Ok? ==> decoded.value == EmittedLast(f.config, es + [e])
    ensures Refused(f, es, f.native[|es|]) <==> decoded.Err? || (decoded.value.Some? && !Passes(f, decoded.value.value))
    ensures !Refused(f, es, f.native[|es|]) ==>
              && GoodStart(f, es + [e])
              && Emissions(f.config, es + [e]) == Emissions(f.config, es) + AsSeq(decoded.value)
  {
    if !Refused(f, es, f.native[|es|]) {
      StartGrows(f, es, e);
    }
  }

  lemma {:induction false} EmissionsOfPrefix(c: Config, es: seq<Event>, n: nat)
    requires n <= |es|
    ensures Emissions(c, es[..n]) <= Emissions(c, es)
    decreases |es|
  {
    if n < |es| {
      EmissionsOfPrefix(c, es[..|es| - 1], n);
      assert es[..|es| - 1][..n] == es[..n];
    } else {
      assert es[..n] == es;
    }
  }

  /**
   The blocking iterator over a connection's events; an error or the end is final. `stops` is what each look
   at the stop flag sees; others may raise the flag at any time, also during a blocking read.
   */
  class BinlogStream {
    const feed: Feed
    const stops: nat -> bool
    const decoder: Decoder
    var looks: nat
    var count: nat
    var ended: bool
    ghost var good: seq<Event>

    ghost predicate Valid()
      reads this, decoder
    {
      && decoder.config == feed.config && GoodStart(feed, good)
      && (!ended ==> decoder.Valid() && decoder.seen == good && count == |good|)
    }

    constructor (feed: Feed, stops: nat -> bool)
      ensures Valid() && fresh(decoder) && !ended && good == [] && looks == 0
      ensures this.feed == feed && this.stops == stops
    {
      decoder := new Decoder(feed.config);
      this.feed, this.stops := feed, stops;
      looks, count, ended, good := 0, 0, false, [];
    }

    /** One look at the stop flag. */
    method LookForStop() returns (stop: bool)
      modifies this`looks
      ensures looks == old(looks) + 1 && stop == stops(old(looks))
    {
      stop := stops(looks);
      looks := looks + 1;
    }

    /** Some look at the flag since `from` saw a stop. */
    ghost predicate SawStop(from: nat)
      reads this
    {
      exists k :: from <= k < looks && stops(k)
    }

    /** Decodes the event that arrived; a transaction with rows must also validate. */
    method Receive() returns (r: Result<Option<Transaction>, ()>)
      requires Valid() && !ended && count < Limit(feed) && feed.native[count].Arrived?
      modifies this`count, this`ended, this`good, decoder
      ensures Valid() && (ended <==> r.Err?) && (r.Err? <==> Refused(feed, old(good), feed.native[old(count)]))
      ensures r.Err? ==> good == old(good)
      ensures r.Ok? ==> Emissions(feed.config, good) == Emissions(feed.config, old(good)) + AsSeq(r.value)
      ensures r.Ok? ==> good == old(good) + [feed.native[old(count)].event]
    {
      var event := feed.native[count].event;
      var decoded := decoder.Decode(event);
      ReceivedNext(feed, good, event, decoded);
      count := count + 1;
      if decoded.Err? {
        ended := true;
        return Err(());
      }
      if decoded.value.Some? && decoded.value.value.changes != [] && !feed.valid(decoded.value.value) {
        ended := true;
        return Err(());
      }
      good := good + [event];
      return decoded;
    }

    /** The end: no transaction may be open. */
    method Close() returns (r: Option<Result<Transaction, ()>>)
      requires Valid() && !ended
      modifies this`ended
      ensures Valid() && ended && r == if IsOpen(feed.config, good) then Some(Err(())) else None
    {
      ended := true;
      var complete := decoder.EnsureComplete();
      return if complete then None else Some(Err(()));
    }

    /** A read that failed, unless that was because of a stop. */
    method BreakOff() returns (r: Option<Result<Transaction, ()>>)
      requires Valid() && !ended
      modifies this`ended, this`looks
      ensures Valid() && ended && looks == old(looks) + 1
      ensures r == if stops(old(looks)) then None else Some(Err(()))
    {
      ended := true;
      var stop := LookForStop();
      return if stop then None else Some(Err(()));
    }

    /**
     The next transaction of the log. Nothing comes for no other reason than a stop, or the limit or the end of
     the connection outside a transaction; an error comes exactly for an item that is refused, or at the limit
     or the end inside a transaction.
     */
    method Next() returns (r: Option<Result<Transaction, ()>>)
      requires Valid()
      modifies this`looks, this`count, this`ended, this`good, decoder
      ensures Valid() && old(good) <= good && old(looks) <= looks
      ensures old(ended) ==> r == None && ended && good == old(good)
      ensures ended <==> r.None? || r.value.Err?
      ensures Emissions(feed.config, good)
              == Emissions(feed.config, old(good)) + (if r.Some? && r.value.Ok? then [r.value.value] else [])
      ensures !old(ended) && r.None? ==>
                SawStop(old(looks)) || (|good| == Limit(feed) && !IsOpen(feed.config, good))
      ensures r.Some? && r.value.Err? ==>
                if |good| == Limit(feed) then IsOpen(feed.config, good) else Refused(feed, good, feed.native[|good|])
      ensures r.Some? && r.value.Ok? ==> |old(good)| < |good|
    {
      if ended {
        return None;
      }
      ghost var before := Emissions(feed.config, good);
      while true
        invariant Valid() && !ended && old(good) <= good && old(looks) <= looks
        invariant Emissions(feed.config, good) == before
        decreases Limit(feed) - count
      {
        var stop := LookForStop();
        if stop {
          ended := true;
          return None;
        }
        if (feed.maxEvents.Some? && count >= feed.maxEvents.value) || count == |feed.native| {
          r := Close();
          return;
        }
        if feed.native[count].Broken? {
          r := BreakOff();
          return;
        }
        var received := Receive();
        if received.Err? {
          return Some(Err(()));
        }
        if received.value.Some? {
          return Some(Ok(received.value.value));
        }
      }
    }
  }

  /** How a feed ends after a good start: outside a transaction at the limit or the end, or with an error. */
  ghost predicate EndsAt(f: Feed, es: seq<Event>, failed: bool) {
    if |es| >= Limit(f) then failed == IsOpen(f.config, es) else failed && Refused(f, es, f.native[|es|])
  }

  /**
   What a consumer gets: the transactions of a good start of the feed, in order, each exactly once. Unless a
   stop was seen, that start goes on to the limit, to the end of the connection, or to the first refused item.
   */
  method ReadStream(feed: Feed, stops: nat -> bool) returns (out: seq<Transaction>, failed: bool)
    ensures exists es ::
              && GoodStart(feed, es) && out == Emissions(feed.config, es)
              && (EndsAt(feed, es, failed) || (!failed && exists k :: stops(k)))
    ensures forall i :: 0 <= i < |out| && out[i].changes != [] ==> feed.valid(out[i])
  {
    var stream := new BinlogStream(feed, stops);
    out, failed := [], false;
    while true
      invariant stream.Valid() && !stream.ended && fresh(stream) && fresh(stream.decoder)
      invariant stream.feed == feed && stream.stops == stops
      invariant out == Emissions(feed.config, stream.good)
      decreases Limit(feed) - |stream.good|
    {
      var next := stream.Next();
      if next.None? || next.value.Err? {
        failed := next.Some?;
        assert GoodStart(feed, stream.good) && out == Emissions(feed.config, stream.good);
        assert forall i :: 0 <= i < |out| ==> Passes(feed, out[i]);
        return;
      }
      out := out + [next.value.value];
    }
  }
}
