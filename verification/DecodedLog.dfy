/**
 What the decoder accepts and hands out, said of the events themselves: which events stand in which places
 of a log, which rows count, and how a transaction is named. Nothing here walks a log the way the decoder
 does; every notion says which earlier event is there and what does not come in between.
 */
module DecodedLogs {
  import opened Outcomes
  import opened Images
  import opened Decoders

  // ---------------------------------------------------------------- files and table maps

  /** No rotation from `a` up to `b`. */
  ghost predicate NoRotation(es: seq<Event>, a: nat, b: nat)
    requires a <= b <= |es|
  {
    forall j :: a <= j < b ==> !es[j].body.Rotate?
  }

  /** The file being read is the one of the last rotation, or the first file. */
  lemma {:induction false} FileIsLastRotation(c: Config, es: seq<Event>, k: nat)
    requires k <= |es|
    ensures NoRotation(es, 0, k) ==> FileAfter(c, es[..k]) == c.file
    ensures forall r :: 0 <= r < k && es[r].body.Rotate? && NoRotation(es, r + 1, k) ==>
              FileAfter(c, es[..k]) == es[r].body.file
    decreases k
  {
    if k > 0 {
      assert es[..k][..k - 1] == es[..k - 1];
      FileIsLastRotation(c, es, k - 1);
    }
  }

  /** Before event `k` the id is mapped by event `m`: no rotation and no other map of it comes in between. */
  ghost predicate MapsTo(es: seq<Event>, k: nat, id: nat, m: nat)
    requires k <= |es|
  {
    && m < k && es[m].body.TableMap? && es[m].body.id == id
    && forall j :: m < j < k ==> !es[j].body.Rotate? && !(es[j].body.TableMap? && es[j].body.id == id)
  }

  /** Rows of the mapped table are passed over: it was not selected for capture. */
  predicate Unselected(c: Config, mapping: Body) {
    mapping.TableMap? && c.capture != {} && (mapping.table !in c.capture || mapping.columns == 0)
  }

  lemma {:induction false} MapIsLast(c: Config, es: seq<Event>, k: nat, id: nat)
    requires k <= |es|
    ensures id in TablesAfter(c, es[..k]) <==> exists m: nat :: MapsTo(es, k, id, m)
    ensures forall m: nat :: MapsTo(es, k, id, m) ==>
              && id in TablesAfter(c, es[..k])
              && (IsSkipped(c, TablesAfter(c, es[..k]), id) <==> Unselected(c, es[m].body))
    decreases k
  {
    if k > 0 {
      var e, n := es[k - 1].body, k - 1;
      assert es[..k][..n] == es[..n] && es[..k][n] == es[n];
      MapIsLast(c, es, n, id);
      if e.Rotate? {
        assert forall m: nat :: !MapsTo(es, k, id, m);
      } else if e.TableMap? && e.id == id {
        assert MapsTo(es, k, id, n);
        assert forall m: nat :: MapsTo(es, k, id, m) ==> m == n;
      } else {
        forall m: nat
          ensures MapsTo(es, k, id, m) <==> MapsTo(es, n, id, m)
        {
          assert MapsTo(es, k, id, m) ==> m != n;
        }
      }
    }
  }

  /** The rows of event `k` that count: of a table selected for capture. */
  ghost predicate Counts(c: Config, es: seq<Event>, k: nat)
    requires k < |es|
  {
    && es[k].body.Rows? && es[k].body.changes.Some?
    && !exists m: nat :: MapsTo(es, k, es[k].body.tableId, m) && Unselected(c, es[m].body)
  }

  lemma {:induction false} CountedRows(c: Config, es: seq<Event>, k: nat)
    requires k < |es|
    ensures CapturedAt(c, es, k) == if Counts(c, es, k) then es[k].body.changes.value else []
  {
    if es[k].body.Rows? {
      MapIsLast(c, es, k, es[k].body.tableId);
    }
  }

  // ---------------------------------------------------------------- open blocks

  /** No row counts strictly between the two events. */
  ghost predicate NoRowsBetween(c: Config, es: seq<Event>, s: nat, j: nat)
    requires j <= |es|
  {
    forall m :: s < m < j ==> CapturedAt(c, es, m) == []
  }

  /** Event `j` ends a block opened at `s`: a rotation, a commit, a rollback, or a statement before any row. */
  ghost predicate Closes(c: Config, es: seq<Event>, s: nat, j: nat)
    requires j < |es|
  {
    match es[j].body
    case Rotate(_) | CommitQuery | Xid | Rollback => true
    case ControlDdl => c.capture != {} || NoRowsBetween(c, es, s, j)
    case OtherStatement => NoRowsBetween(c, es, s, j)
    case _ => false
  }

  ghost predicate StillOpen(c: Config, es: seq<Event>, s: nat, k: nat)
    requires k <= |es|
  {
    forall j :: s < j < k ==> !Closes(c, es, s, j)
  }

  /** Event `k` comes inside a block: a GTID or a BEGIN opened it, and nothing has closed it since. */
  ghost predicate Inside(c: Config, es: seq<Event>, k: nat)
    requires k <= |es|
  {
    exists s :: 0 <= s < k && (es[s].body.GtidEvent? || es[s].body.AnonymousGtid? || es[s].body.Begin?)
      && StillOpen(c, es, s, k)
  }

  ghost predicate BegunAt(c: Config, es: seq<Event>, b: nat, k: nat)
    requires k <= |es|
  {
    b < k && es[b].body.Begin? && StillOpen(c, es, b, k)
  }

  ghost predicate Begun(c: Config, es: seq<Event>, k: nat)
    requires k <= |es|
  {
    exists b: nat :: BegunAt(c, es, b, k)
  }

  lemma {:induction false} CapturedSame(c: Config, es: seq<Event>, n: nat, a: nat, b: nat)
    requires a <= b <= n <= |es|
    ensures CapturedIn(c, es[..n], a, b) == CapturedIn(c, es, a, b)
  {
    CapturedOfPrefix(c, es, n, a, b);
  }

  lemma {:induction false} CapturedSplits(c: Config, es: seq<Event>, a: nat, s: nat, b: nat)
    requires a <= s <= b <= |es|
    ensures CapturedIn(c, es, a, b) == CapturedIn(c, es, a, s) + CapturedIn(c, es, s, b)
    decreases b
  {
    if s < b {
      CapturedSplits(c, es, a, s, b - 1);
    }
  }

  ghost predicate NoneCaptured(c: Config, es: seq<Event>, a: nat, b: nat)
    requires a <= b <= |es|
  {
    forall m :: a <= m < b ==> CapturedAt(c, es, m) == []
  }

  lemma {:induction false} LastCaptured(c: Config, es: seq<Event>, a: nat, b: nat)
    requires a <= b < |es|
    ensures NoneCaptured(c, es, a, b + 1) <==> NoneCaptured(c, es, a, b) && CapturedAt(c, es, b) == []
  {
  }

  lemma {:induction false} NothingCaptured(c: Config, es: seq<Event>, a: nat, b: nat)
    requires a <= b <= |es|
    ensures CapturedIn(c, es, a, b) == [] <==> NoneCaptured(c, es, a, b)
    decreases b
  {
    if a < b {
      NothingCaptured(c, es, a, b - 1);
      LastCaptured(c, es, a, b - 1);
      BothEmpty(CapturedIn(c, es, a, b - 1), CapturedAt(c, es, b - 1));
    }
  }

  lemma {:induction false} BothEmpty<T>(x: seq<T>, y: seq<T>)
    ensures x + y == [] <==> x == [] && y == []
  {
    assert |x + y| == |x| + |y|;
  }

  /** Where a block starts does not change until an event ends it. */
  lemma {:induction false} SameStart(c: Config, es: seq<Event>, j: nat, k: nat)
    requires j <= k <= |es| && BlockStart(c, es[..k]) <= j
    ensures BlockStart(c, es[..j]) == BlockStart(c, es[..k])
    decreases k
  {
    if j < k {
      NextStartAlways(c, es, k - 1);
      SameStart(c, es, j, k - 1);
    }
  }

  lemma {:induction false} NotEnded(c: Config, es: seq<Event>, j: nat, k: nat)
    requires j < k <= |es| && BlockStart(c, es[..k]) <= j
    ensures !Ends(c, es[j].body, BlockRows(c, es[..j]) == [])
  {
    SameStart(c, es, j + 1, k);
    NextStart(c, es, j);
  }

  /** In an accepted log no row of a block counts before the block is begun. */
  lemma {:induction false} NoRowsBeforeBegin(c: Config, es: seq<Event>, k: nat, m: nat, s: nat)
    requires k <= |es| && Accepted(c, es[..k]) && BlockStart(c, es[..k]) <= m <= s < k
    requires forall j :: BlockStart(c, es[..k]) <= j < s ==> !es[j].body.Begin?
    requires !es[s].body.Rows?
    ensures CapturedAt(c, es, m) == []
  {
    var a := BlockStart(c, es[..k]);
    SameStart(c, es, m, k);
    assert es[..k][..m] == es[..m] && es[..k][m] == es[m];
    assert !Rejects(c, es[..k][..m], es[..k][m].body);
    FirstBeginIs(es[..m], a, m);
  }

  /** From an event of a block before which no row counts, the block is still open. */
  lemma {:induction false} BlockStaysOpen(c: Config, es: seq<Event>, s: nat, k: nat)
    requires s < k <= |es| && BlockStart(c, es[..k]) <= s
    requires forall m :: BlockStart(c, es[..k]) <= m <= s ==> CapturedAt(c, es, m) == []
    ensures StillOpen(c, es, s, k)
  {
    var a := BlockStart(c, es[..k]);
    forall j | s < j < k
      ensures !Closes(c, es, s, j)
    {
      NotEnded(c, es, j, k);
      SameStart(c, es, j, k);
      CapturedSame(c, es, j, a, j);
      NothingCaptured(c, es, a, j);
    }
  }

  /** And a block that an event opened, and nothing closed, reaches back to it. */
  lemma {:induction false} OpenReachesBack(c: Config, es: seq<Event>, s: nat, k: nat)
    requires s < k <= |es| && Opens(es[s].body) && StillOpen(c, es, s, k)
    ensures BlockStart(c, es[..k]) <= s
    decreases k
  {
    NextStart(c, es, k - 1);
    if s < k - 1 {
      OpenReachesBack(c, es, s, k - 1);
      assert !Closes(c, es, s, k - 1);
      NotClosedNotEnded(c, es, s, k - 1);
    } else {
      assert !Ends(c, es[s].body, true) && !Ends(c, es[s].body, false);
    }
  }

  lemma {:induction false} NotClosedNotEnded(c: Config, es: seq<Event>, s: nat, n: nat)
    requires s < n < |es| && BlockStart(c, es[..n]) <= s && !Closes(c, es, s, n)
    ensures !Ends(c, es[n].body, BlockRows(c, es[..n]) == [])
  {
    var a := BlockStart(c, es[..n]);
    CapturedSame(c, es, n, a, n);
    NothingCaptured(c, es, a, n);
  }

  lemma {:induction false} FirstBeginBegins(c: Config, es: seq<Event>, k: nat, b: nat)
    requires k <= |es| && Accepted(c, es[..k]) && b == FirstBegin(es[..k], BlockStart(c, es[..k])) && b < k
    ensures BegunAt(c, es, b, k)
  {
    forall m | BlockStart(c, es[..k]) <= m <= b
      ensures CapturedAt(c, es, m) == []
    {
      NoRowsBeforeBegin(c, es, k, m, b);
    }
    BlockStaysOpen(c, es, b, k);
  }

  lemma {:induction false} BegunFromEvents(c: Config, es: seq<Event>, k: nat)
    requires k <= |es| && Accepted(c, es[..k])
    ensures IsBegun(c, es[..k]) <==> Begun(c, es, k)
    ensures IsBegun(c, es[..k]) ==> BegunAt(c, es, FirstBegin(es[..k], BlockStart(c, es[..k])), k)
  {
    var a := BlockStart(c, es[..k]);
    if IsBegun(c, es[..k]) {
      FirstBeginBegins(c, es, k, FirstBegin(es[..k], a));
    }
    if b :| BegunAt(c, es, b, k) {
      OpenReachesBack(c, es, b, k);
    }
  }

  lemma {:induction false} OpenFromEvents(c: Config, es: seq<Event>, k: nat)
    requires k <= |es| && Accepted(c, es[..k])
    ensures IsOpen(c, es[..k]) <==> Inside(c, es, k)
  {
    var a := BlockStart(c, es[..k]);
    if IsOpen(c, es[..k]) {
      var s := FirstOpening(es[..k], a);
      forall m | a <= m <= s
        ensures CapturedAt(c, es, m) == []
      {
        NoRowsBeforeBegin(c, es, k, m, s);
      }
      BlockStaysOpen(c, es, s, k);
    }
    if Inside(c, es, k) {
      var s :| 0 <= s < k && (es[s].body.GtidEvent? || es[s].body.AnonymousGtid? || es[s].body.Begin?)
        && StillOpen(c, es, s, k);
      OpenReachesBack(c, es, s, k);
    }
  }

  // ---------------------------------------------------------------- what an accepted log holds

  /** There is a BEGIN the block was begun by, and the rows since then leave room for more, up to 64 MiB. */
  ghost predicate HasRoom(c: Config, es: seq<Event>, k: nat, size: nat)
    requires k <= |es|
  {
    exists b: nat :: BegunAt(c, es, b, k) && TotalSize(CapturedIn(c, es, b, k)) + size <= 0x400_0000
  }

  /** The event may stand where it stands. */
  ghost predicate MayStand(c: Config, es: seq<Event>, k: nat)
    requires k < |es|
  {
    match es[k].body
    case Unsupported => false
    case OtherStatement => !c.rejectStatements
    case Rotate(_) | GtidEvent(_) | AnonymousGtid => !Inside(c, es, k)
    case Begin => !Begun(c, es, k)
    case CommitQuery | Xid => Inside(c, es, k) ==> Begun(c, es, k)
    case TableMap(_, table, _, loads) => loads || (c.capture != {} && table !in c.capture)
    case Rows(id, changes) =>
      exists m: nat :: MapsTo(es, k, id, m)
        && (Unselected(c, es[m].body) || (changes.Some? && HasRoom(c, es, k, TotalSize(changes.value))))
    case Rollback | ControlDdl | Ignored => true
  }

  lemma {:induction false} RoomFromEvents(c: Config, es: seq<Event>, k: nat, size: nat)
    requires k <= |es| && Accepted(c, es[..k])
    ensures HasRoom(c, es, k, size)
            <==> IsOpen(c, es[..k]) && IsBegun(c, es[..k])
                 && TotalSize(BlockRows(c, es[..k])) + size <= MAX_TRANSACTION_BYTES
  {
    var a := BlockStart(c, es[..k]);
    BegunFromEvents(c, es, k);
    BegunIsOpen(es[..k], a);
    if IsBegun(c, es[..k]) {
      var first := FirstBegin(es[..k], a);
      RowsSinceBegin(c, es, k, first);
      forall b | BegunAt(c, es, b, k)
        ensures b == first
      {
        OpenReachesBack(c, es, b, k);
        OneBegin(c, es, k, first, b);
      }
    }
  }

  lemma {:induction false} RowsSinceBegin(c: Config, es: seq<Event>, k: nat, b: nat)
    requires k <= |es| && Accepted(c, es[..k]) && b == FirstBegin(es[..k], BlockStart(c, es[..k])) && b < k
    ensures BlockRows(c, es[..k]) == CapturedIn(c, es, b, k)
  {
    var a := BlockStart(c, es[..k]);
    CapturedSame(c, es, k, a, k);
    CapturedSplits(c, es, a, b, k);
    forall m | a <= m < b
      ensures CapturedAt(c, es, m) == []
    {
      NoRowsBeforeBegin(c, es, k, m, b);
    }
    NothingCaptured(c, es, a, b);
  }

  /** A block of an accepted log holds at most one BEGIN. */
  lemma {:induction false} OneBegin(c: Config, es: seq<Event>, k: nat, first: nat, b: nat)
    requires k <= |es| && Accepted(c, es[..k]) && first == FirstBegin(es[..k], BlockStart(c, es[..k]))
    requires BlockStart(c, es[..k]) <= b < k && es[b].body.Begin?
    ensures b == first
  {
    var a := BlockStart(c, es[..k]);
    SameStart(c, es, b, k);
    assert es[..k][..b] == es[..b] && es[..k][b] == es[b];
    assert !Rejects(c, es[..k][..b], es[..k][b].body);
    assert FirstBegin(es[..b], a) == b;
    assert forall j :: a <= j < b ==> es[..k][j] == es[..b][j];
    FirstBeginIs(es[..k], a, b);
  }

  lemma {:induction false} StandsUnlessRejected(c: Config, es: seq<Event>, k: nat)
    requires k < |es| && Accepted(c, es[..k])
    ensures MayStand(c, es, k) <==> !Rejects(c, es[..k], es[k].body)
  {
    OpenFromEvents(c, es, k);
    BegunFromEvents(c, es, k);
    if es[k].body.Rows? {
      MapIsLast(c, es, k, es[k].body.tableId);
      if es[k].body.changes.Some? {
        RoomFromEvents(c, es, k, TotalSize(es[k].body.changes.value));
      }
    }
  }

  /**
   The decoder accepts a log exactly when every event may stand where it stands: no unsupported event; no
   statement where statements are rejected; no rotation and no GTID inside a block, no second BEGIN, and no
   commit of a block without one; table maps that load, or of unselected tables; and rows only of mapped
   tables, and of selected ones only inside a begun block and within the limit.
   */
  lemma {:induction false} AcceptedFromEvents(c: Config, es: seq<Event>)
    ensures Accepted(c, es) <==> forall k :: 0 <= k < |es| ==> MayStand(c, es, k)
  {
    if Accepted(c, es) {
      forall k | 0 <= k < |es|
        ensures MayStand(c, es, k)
      {
        AcceptedPrefix(c, es, k);
        StandsUnlessRejected(c, es, k);
        assert !Rejects(c, es[..k], es[k].body);
      }
    }
    if forall k :: 0 <= k < |es| ==> MayStand(c, es, k) {
      StandingIsAccepted(c, es, |es|);
      assert es[..|es|] == es;
    }
  }

  lemma {:induction false} StandingIsAccepted(c: Config, es: seq<Event>, n: nat)
    requires n <= |es| && forall k :: 0 <= k < n ==> MayStand(c, es, k)
    ensures Accepted(c, es[..n])
    decreases n
  {
    if n > 0 {
      StandingIsAccepted(c, es, n - 1);
      StandsUnlessRejected(c, es, n - 1);
      AcceptedNext(c, es[..n - 1], es[n - 1]);
      assert es[..n] == es[..n - 1] + [es[n - 1]];
    }
  }

  // ---------------------------------------------------------------- what an accepted log hands out

  /** The event opened the block that event `n` comes inside: a GTID, or a BEGIN with no GTID before it. */
  ghost predicate OpenedBy(c: Config, es: seq<Event>, s: nat, n: nat)
    requires n <= |es|
  {
    && s < n && (es[s].body.GtidEvent? || es[s].body.AnonymousGtid? || es[s].body.Begin?) && StillOpen(c, es, s, n)
    && forall j :: 0 <= j < s && (es[j].body.GtidEvent? || es[j].body.AnonymousGtid? || es[j].body.Begin?) ==>
         !StillOpen(c, es, j, n)
  }

  predicate CommitsHere(c: Config, e: Body) {
    e.CommitQuery? || e.Xid? || (e.ControlDdl? && c.capture != {})
  }

  /**
   The transaction of the block opened at `s` and committed at `n`: named after the opening event, begun at
   its BEGIN if it has one, and with exactly the rows that count in between.
   */
  ghost predicate IsBlock(c: Config, es: seq<Event>, s: nat, n: nat, t: Transaction)
    requires s < n < |es|
  {
    && t.name == (if es[s].body.GtidEvent? then Named(es[s].body.gtid) else Anonymous(PlaceOf(c, es, s)))
    && (forall b: nat :: BegunAt(c, es, b, n) ==> t.begin == PlaceOf(c, es, b))
    && (!Begun(c, es, n) ==> t.begin == PlaceOf(c, es, s))
    && t.commit == PlaceOf(c, es, n) && t.changes == CapturedIn(c, es, s, n)
  }

  lemma {:induction false} FirstOpeningOpens(c: Config, es: seq<Event>, n: nat)
    requires n <= |es| && Accepted(c, es[..n]) && IsOpen(c, es[..n])
    ensures OpenedBy(c, es, FirstOpening(es[..n], BlockStart(c, es[..n])), n)
    ensures BlockRows(c, es[..n]) == CapturedIn(c, es, FirstOpening(es[..n], BlockStart(c, es[..n])), n)
  {
    var a := BlockStart(c, es[..n]);
    var s := FirstOpening(es[..n], a);
    forall m | a <= m <= s
      ensures CapturedAt(c, es, m) == []
    {
      NoRowsBeforeBegin(c, es, n, m, s);
    }
    BlockStaysOpen(c, es, s, n);
    forall j | 0 <= j < s && Opens(es[j].body)
      ensures !StillOpen(c, es, j, n)
    {
      if StillOpen(c, es, j, n) {
        OpenReachesBack(c, es, j, n);
      }
    }
    CapturedSame(c, es, n, a, n);
    CapturedSplits(c, es, a, s, n);
    NothingCaptured(c, es, a, s);
  }

  lemma {:induction false} PlaceInPrefix(c: Config, es: seq<Event>, n: nat, k: nat)
    requires k < n <= |es|
    ensures PlaceOf(c, es[..n], k) == PlaceOf(c, es, k)
  {
    assert es[..n][..k] == es[..k];
  }

  lemma {:induction false} BlockIsNamed(c: Config, es: seq<Event>, n: nat)
    requires n < |es| && Accepted(c, es[..n]) && IsOpen(c, es[..n])
    ensures
      var s := FirstOpening(es[..n], BlockStart(c, es[..n]));
      IsBlock(c, es, s, n, Transaction(BlockName(c, es[..n]), BlockBegin(c, es[..n]), PlaceOf(c, es, n),
                                       BlockRows(c, es[..n])))
  {
    var a := BlockStart(c, es[..n]);
    var s, first := FirstOpening(es[..n], a), FirstBegin(es[..n], a);
    FirstOpeningOpens(c, es, n);
    PlaceInPrefix(c, es, n, s);
    BegunFromEvents(c, es, n);
    forall b: nat | BegunAt(c, es, b, n)
      ensures b == first
    {
      OpenReachesBack(c, es, b, n);
      OneBegin(c, es, n, first, b);
    }
    if first < n {
      PlaceInPrefix(c, es, n, first);
    }
  }

  lemma {:induction false} EmittedBlock(c: Config, es: seq<Event>, n: nat)
    requires n < |es|
    ensures EmittedLast(c, es[..n + 1])
            == if CommitsHere(c, es[n].body) && IsOpen(c, es[..n]) && (BlockRows(c, es[..n]) != [] || c.capture != {})
               then Some(Transaction(BlockName(c, es[..n]), BlockBegin(c, es[..n]), PlaceOf(c, es, n),
                                     BlockRows(c, es[..n])))
               else None
  {
    assert es[..n + 1][..n] == es[..n] && es[..n + 1][n] == es[n];
    PlaceInPrefix(c, es, n + 1, n);
  }

  /**
   A transaction is handed out exactly at a commit inside a block, unless no row counts in it and everything
   is captured; and then it is that block.
   */
  lemma {:induction false} EmittedFromEvents(c: Config, es: seq<Event>, n: nat)
    requires n < |es| && Accepted(c, es[..n])
    ensures EmittedLast(c, es[..n + 1]).Some?
            <==> exists s: nat :: OpenedBy(c, es, s, n) && CommitsHere(c, es[n].body)
                   && (c.capture != {} || !NoRowsBetween(c, es, s, n))
    ensures EmittedLast(c, es[..n + 1]).Some? ==>
              exists s: nat :: OpenedBy(c, es, s, n) && IsBlock(c, es, s, n, EmittedLast(c, es[..n + 1]).value)
  {
    var block := es[..n];
    EmittedBlock(c, es, n);
    OpenFromEvents(c, es, n);
    if IsOpen(c, block) {
      var s := FirstOpening(block, BlockStart(c, block));
      FirstOpeningOpens(c, es, n);
      BlockIsNamed(c, es, n);
      RowsAfterOpening(c, es, n, s);
      forall r: nat | OpenedBy(c, es, r, n)
        ensures r == s
      {
        OneOpening(c, es, r, s, n);
      }
    }
  }

  lemma {:induction false} OneOpening(c: Config, es: seq<Event>, r: nat, s: nat, n: nat)
    requires n <= |es| && OpenedBy(c, es, r, n) && OpenedBy(c, es, s, n)
    ensures r == s
  {
  }

  lemma {:induction false} RowsAfterOpening(c: Config, es: seq<Event>, n: nat, s: nat)
    requires s < n <= |es| && !es[s].body.Rows?
    ensures CapturedIn(c, es, s, n) == [] <==> NoRowsBetween(c, es, s, n)
  {
    NothingCaptured(c, es, s, n);
  }
}
