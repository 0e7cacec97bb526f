/**
 Keyset scanning: each table of a read view is read in key order, 256 rows at a time, from just past the
 last key seen. A key is the sequence of its columns' values, compared lexicographically.
 */
module Keysets {
  import opened Outcomes
  import opened Images
  import opened Rows
  import opened Checkpoints
  import opened Copying

  const BATCH_ROWS := 256
  const MAX_BATCH_BYTES := 16 * 1024 * 1024

  type Key = seq<int>

  /** A stored row: its key, its size, and whether its values decode without loss. */
  datatype Stored = Stored(key: Key, bytes: nat, readable: bool, image: Image)

  datatype ReadError = Cancelled | TooLarge | Unreadable

  // ---------------------------------------------------------------- the key order

  predicate Precedes(a: Key, b: Key) {
    if b == [] then false
    else if a == [] then true
    else a[0] < b[0] || (a[0] == b[0] && Precedes(a[1..], b[1..]))
  }

  lemma {:induction false} PrecedesIsTransitive(a: Key, b: Key, c: Key)
    requires Precedes(a, b) && Precedes(b, c)
    ensures Precedes(a, c)
    decreases |b|
  {
    if a != [] && a[0] == b[0] == c[0] {
      PrecedesIsTransitive(a[1..], b[1..], c[1..]);
    }
  }

  lemma {:induction false} PrecedesIsStrict(a: Key, b: Key)
    requires Precedes(a, b)
    ensures !Precedes(b, a)
    decreases |a|
  {
    if a != [] && a[0] == b[0] {
      PrecedesIsStrict(a[1..], b[1..]);
    }
  }

  lemma {:induction false} PrecedesIsTotal(a: Key, b: Key)
    ensures a == b || Precedes(a, b) || Precedes(b, a)
    decreases |a|
  {
    if a != [] && b != [] && a[0] == b[0] {
      PrecedesIsTotal(a[1..], b[1..]);
      assert a == [a[0]] + a[1..] && b == [b[0]] + b[1..];
    }
  }

  /** Keys are in a strict total order. */
  lemma {:induction false} KeyOrderIsStrictTotal(a: Key, b: Key, c: Key)
    ensures Precedes(a, b) ==> !Precedes(b, a)
    ensures Precedes(a, b) && Precedes(b, c) ==> Precedes(a, c)
    ensures a == b || Precedes(a, b) || Precedes(b, a)
  {
    if Precedes(a, b) {
      PrecedesIsStrict(a, b);
    }
    if Precedes(a, b) && Precedes(b, c) {
      PrecedesIsTransitive(a, b, c);
    }
    PrecedesIsTotal(a, b);
  }

  /** A table in key order; keys are not empty. */
  ghost predicate Sorted(rows: seq<Stored>) {
    && (forall i :: 0 <= i < |rows| ==> rows[i].key != [])
    && forall i, j :: 0 <= i < j < |rows| ==> Precedes(rows[i].key, rows[j].key)
  }

  // ---------------------------------------------------------------- the query

  /** `WHERE (keys) > (last)`, without a condition before the first key. */
  function Past(rows: seq<Stored>, last: Key): seq<Stored> {
    if rows == [] then []
    else (if last == [] || Precedes(last, rows[0].key) then [rows[0]] else []) + Past(rows[1..], last)
  }

  /** The rows that the query returns, in key order. */
  function Select(rows: seq<Stored>, last: Key): seq<Stored> {
    var past := Past(rows, last);
    if |past| <= BATCH_ROWS then past else past[..BATCH_ROWS]
  }

  /** The key after which a scan that has read `k` rows goes on. */
  function LastKey(rows: seq<Stored>, k: nat): Key
    requires k <= |rows|
  {
    if k == 0 then [] else rows[k - 1].key
  }

  lemma {:induction false} PastAll(rows: seq<Stored>, last: Key)
    requires last == [] || forall i :: 0 <= i < |rows| ==> Precedes(last, rows[i].key)
    ensures Past(rows, last) == rows
    decreases |rows|
  {
    if rows != [] {
      PastAll(rows[1..], last);
    }
  }

  lemma {:induction false} PastDrops(rows: seq<Stored>, last: Key, k: nat)
    requires k <= |rows| && last != []
    requires forall i :: 0 <= i < |rows| ==> (Precedes(last, rows[i].key) <==> k <= i)
    ensures Past(rows, last) == rows[k..]
    decreases |rows|
  {
    if k == 0 {
      PastAll(rows, last);
    } else {
      PastDrops(rows[1..], last, k - 1);
      assert rows[1..][k - 1..] == rows[k..];
    }
  }

  /** The condition past the last key read leaves exactly the rows not read yet. */
  lemma {:induction false} PastLastKey(rows: seq<Stored>, k: nat)
    requires Sorted(rows) && k <= |rows|
    ensures Past(rows, LastKey(rows, k)) == rows[k..]
  {
    if k == 0 {
      PastAll(rows, []);
    } else {
      var last := rows[k - 1].key;
      forall i | 0 <= i < |rows|
        ensures Precedes(last, rows[i].key) <==> k <= i
      {
        if i < k - 1 {
          PrecedesIsStrict(rows[i].key, last);
        } else if i == k - 1 && Precedes(last, last) {
          PrecedesIsStrict(last, last);
        }
      }
      PastDrops(rows, last, k);
    }
  }

  // ---------------------------------------------------------------- the batches of one table

  function BatchEnd(n: nat, k: nat): (e: nat)
    requires k <= n
    ensures k <= e <= n && e - k <= BATCH_ROWS
  {
    if n - k <= BATCH_ROWS then n else k + BATCH_ROWS
  }

  lemma {:induction false} SelectNext(rows: seq<Stored>, k: nat)
    requires Sorted(rows) && k <= |rows|
    ensures Select(rows, LastKey(rows, k)) == rows[k..BatchEnd(|rows|, k)]
  {
    PastLastKey(rows, k);
  }

  /** The row ranges a scan delivers; a short batch ends the table. */
  function Cuts(n: nat, k: nat): seq<(nat, nat)>
    requires k <= n
    decreases n - k
  {
    var e := BatchEnd(n, k);
    if e - k < BATCH_ROWS then [(k, e)] else [(k, e)] + Cuts(n, e)
  }

  predicate IsShort(range: (nat, nat)) {
    range.1 - range.0 < BATCH_ROWS
  }

  /**
   Every row exactly once: the ranges follow each other from first to last row, hold at most 256 rows, are
   n / 256 + 1 in number, and only the last is short.
   */
  lemma {:induction false} CutsCoverOnce(n: nat, k: nat)
    requires k <= n
    ensures
      var cuts := Cuts(n, k);
      && |cuts| == (n - k) / 256 + 1
      && cuts[0].0 == k && cuts[|cuts| - 1].1 == n
      && (forall i :: 0 <= i < |cuts| ==> cuts[i].0 <= cuts[i].1 <= cuts[i].0 + 256)
      && (forall i :: 0 < i < |cuts| ==> cuts[i].0 == cuts[i - 1].1)
      && (forall i :: 0 <= i < |cuts| ==> (IsShort(cuts[i]) <==> i == |cuts| - 1))
    decreases n - k
  {
    var e := BatchEnd(n, k);
    if e - k == BATCH_ROWS {
      CutsCoverOnce(n, e);
      var cuts, rest := Cuts(n, k), Cuts(n, e);
      assert forall i :: 0 < i < |cuts| ==> cuts[i] == rest[i - 1];
    }
  }

  /** A batch as the reader hands it out. */
  datatype Scanned = Scanned(table: nat, rows: seq<Stored>, last: bool)

  /** The batch after `k` rows of a table. */
  function BatchAt(t: nat, rows: seq<Stored>, k: nat): Scanned
    requires k <= |rows|
  {
    var e := BatchEnd(|rows|, k);
    Scanned(t, rows[k..e], e - k < BATCH_ROWS)
  }

  function TableBatches(t: nat, rows: seq<Stored>, k: nat): seq<Scanned>
    requires k <= |rows|
    decreases |rows| - k
  {
    var b := BatchAt(t, rows, k);
    if b.last then [b] else [b] + TableBatches(t, rows, BatchEnd(|rows|, k))
  }

  lemma {:induction false} BatchesFollowCuts(t: nat, rows: seq<Stored>, k: nat)
    requires k <= |rows|
    ensures |TableBatches(t, rows, k)| == |Cuts(|rows|, k)|
    ensures forall i :: 0 <= i < |Cuts(|rows|, k)| ==>
              var c := Cuts(|rows|, k)[i];
              c.0 <= c.1 <= |rows| && TableBatches(t, rows, k)[i] == Scanned(t, rows[c.0..c.1], IsShort(c))
    decreases |rows| - k
  {
    var e := BatchEnd(|rows|, k);
    if e - k == BATCH_ROWS {
      BatchesFollowCuts(t, rows, e);
    }
  }

  function Concat(batches: seq<Scanned>): seq<Stored> {
    if batches == [] then [] else batches[0].rows + Concat(batches[1..])
  }

  /** The batches of a table concatenate to the table. */
  lemma {:induction false} BatchesConcatenate(t: nat, rows: seq<Stored>, k: nat)
    requires k <= |rows|
    ensures Concat(TableBatches(t, rows, k)) == rows[k..]
    decreases |rows| - k
  {
    var e := BatchEnd(|rows|, k);
    var batches := TableBatches(t, rows, k);
    if e - k == BATCH_ROWS {
      BatchesConcatenate(t, rows, e);
      assert batches[1..] == TableBatches(t, rows, e);
      assert rows[k..] == rows[k..e] + rows[e..];
    } else {
      assert Concat(batches) == batches[0].rows + Concat([]);
    }
  }

  /** The batches of all tables from `t` on, the first one from its row `k`. */
  function AllBatches(tables: seq<seq<Stored>>, t: nat, k: nat): seq<Scanned>
    requires t <= |tables| && k <= (if t < |tables| then |tables[t]| else 0)
    decreases |tables| - t
  {
    if t == |tables| then [] else TableBatches(t, tables[t], k) + AllBatches(tables, t + 1, 0)
  }

  function CountRows(tables: seq<seq<Stored>>, t: nat): nat
    requires t <= |tables|
    decreases |tables| - t
  {
    if t == |tables| then 0 else |tables[t]| + CountRows(tables, t + 1)
  }

  lemma {:induction false} ConcatAppends(a: seq<Scanned>, b: seq<Scanned>)
    ensures Concat(a + b) == Concat(a) + Concat(b)
    decreases |a|
  {
    if a == [] {
      assert a + b == b;
    } else {
      assert (a + b)[0] == a[0] && (a + b)[1..] == a[1..] + b;
      ConcatAppends(a[1..], b);
    }
  }

  /** All batches together hold as many rows as the tables. */
  lemma {:induction false} AllRowsCounted(tables: seq<seq<Stored>>, t: nat)
    requires t <= |tables|
    ensures |Concat(AllBatches(tables, t, 0))| == CountRows(tables, t)
    decreases |tables| - t
  {
    if t < |tables| {
      AllRowsCounted(tables, t + 1);
      BatchesConcatenate(t, tables[t], 0);
      ConcatAppends(TableBatches(t, tables[t], 0), AllBatches(tables, t + 1, 0));
    }
  }

  // ---------------------------------------------------------------- the reader

  /** The batch would pass the limits: its rows fit, and every row decodes. */
  function TotalBytes(rows: seq<Stored>): nat {
    if rows == [] then 0 else TotalBytes(rows[..|rows| - 1]) + rows[|rows| - 1].bytes
  }

  predicate Acceptable(rows: seq<Stored>) {
    TotalBytes(rows) <= MAX_BATCH_BYTES && forall i :: 0 <= i < |rows| ==> rows[i].readable
  }

  lemma {:induction false} PrefixBytes(rows: seq<Stored>, n: nat)
    requires n <= |rows|
    ensures TotalBytes(rows[..n]) <= TotalBytes(rows)
    decreases |rows|
  {
    if n < |rows| {
      PrefixBytes(rows[..|rows| - 1], n);
      assert rows[..|rows| - 1][..n] == rows[..n];
    } else {
      assert rows[..n] == rows;
    }
  }

  class SnapshotReader {
    const tables: seq<seq<Stored>>
    var tableIndex: nat
    var lastKey: Key
    var ended: bool

    constructor (tables: seq<seq<Stored>>)
      ensures this.tables == tables && tableIndex == 0 && lastKey == [] && !ended
    {
      this.tables := tables;
      tableIndex, lastKey, ended := 0, [], false;
    }

    ghost predicate Valid()
      reads this
    {
      tableIndex <= |tables| && forall t {:trigger Sorted(tables[t])} :: 0 <= t < |tables| ==> Sorted(tables[t])
    }

    /** `k` rows of the current table have been handed out. */
    ghost predicate ReadSoFar(k: nat)
      reads this
    {
      if tableIndex < |tables| then k <= |tables[tableIndex]| && lastKey == LastKey(tables[tableIndex], k)
      else tableIndex == |tables| && k == 0
    }

    /** The rows of one query result, unless one is too large or does not decode; `lastKey` follows them. */
    method Collect(result: seq<Stored>) returns (r: Result<seq<Stored>, ReadError>)
      modifies this`lastKey
      ensures if Acceptable(result) then r == Ok(result) else r.Err?
      ensures r.Ok? ==> lastKey == if result == [] then old(lastKey) else result[|result| - 1].key
    {
      var rows, bytes := [], 0;
      for n := 0 to |result|
        invariant rows == result[..n] && bytes == TotalBytes(result[..n]) && bytes <= MAX_BATCH_BYTES
        invariant forall i :: 0 <= i < n ==> result[i].readable
        invariant lastKey == if n == 0 then old(lastKey) else result[n - 1].key
      {
        assert result[..n + 1][..n] == result[..n];
        bytes := bytes + result[n].bytes;
        if bytes > MAX_BATCH_BYTES {
          PrefixBytes(result, n + 1);
          return Err(TooLarge);
        }
        if !result[n].readable {
          return Err(Unreadable);
        }
        lastKey := result[n].key;
        rows := rows + [result[n]];
      }
      assert result[..|result|] == result;
      return Ok(rows);
    }

    /** One query: the batch that comes next. */
    method NextBatch(stopped: bool, ghost k: nat) returns (r: Result<Scanned, ReadError>)
      requires Valid() && tableIndex < |tables| && ReadSoFar(k)
      modifies this
      ensures Valid() && ended == old(ended)
      ensures
        var next := BatchAt(old(tableIndex), tables[old(tableIndex)], k);
        if stopped || !Acceptable(next.rows) then r.Err?
        else
          && r == Ok(next)
          && tableIndex == old(tableIndex) + (if next.last then 1 else 0)
          && ReadSoFar(if next.last then 0 else BatchEnd(|tables[old(tableIndex)]|, k))
    {
      if stopped {
        return Err(Cancelled);
      }
      var result := Select(tables[tableIndex], lastKey);
      SelectNext(tables[tableIndex], k);
      var rows := Collect(result);
      if rows.Err? {
        return Err(rows.error);
      }
      var last := |rows.value| < BATCH_ROWS;
      r := Ok(Scanned(tableIndex, rows.value, last));
      if last {
        tableIndex := tableIndex + 1;
        lastKey := [];
      }
    }

    /** The iterator: nothing more after the last table, or after an error. */
    method Next(stopped: bool, ghost k: nat) returns (r: Option<Result<Scanned, ReadError>>)
      requires Valid() && (!ended ==> ReadSoFar(k))
      modifies this
      ensures Valid()
      ensures r.None? <==> old(ended) || old(tableIndex) == |tables|
      ensures r.None? ==> ended == old(ended) && tableIndex == old(tableIndex)
      ensures r.Some? ==> (ended <==> r.value.Err?)
      ensures r.Some? ==>
                var next := BatchAt(old(tableIndex), tables[old(tableIndex)], k);
                && (r.value.Err? <==> stopped || !Acceptable(next.rows))
                && (r.value.Ok? ==>
                      && r.value.value == next
                      && tableIndex == old(tableIndex) + (if next.last then 1 else 0)
                      && ReadSoFar(if next.last then 0 else BatchEnd(|tables[old(tableIndex)]|, k)))
    {
      if ended || tableIndex == |tables| {
        return None;
      }
      var result := NextBatch(stopped, k);
      if result.Err? {
        ended := true;
      }
      return Some(result);
    }
  }

  predicate AllAcceptable(batches: seq<Scanned>) {
    forall i {:trigger Acceptable(batches[i].rows)} :: 0 <= i < |batches| ==> Acceptable(batches[i].rows)
  }

  lemma {:induction false} AcceptableAppends(a: seq<Scanned>, b: seq<Scanned>)
    ensures AllAcceptable(a + b) <==> AllAcceptable(a) && AllAcceptable(b)
  {
    if AllAcceptable(a + b) {
      forall i | 0 <= i < |a|
        ensures Acceptable(a[i].rows)
      {
        assert Acceptable((a + b)[i].rows);
      }
      forall i | 0 <= i < |b|
        ensures Acceptable(b[i].rows)
      {
        assert Acceptable((a + b)[|a| + i].rows);
      }
    }
  }

  lemma {:induction false} AcceptableSplits(a: seq<Scanned>, b: Scanned, c: seq<Scanned>)
    ensures AllAcceptable(a + ([b] + c)) <==> AllAcceptable(a + [b]) && AllAcceptable(c)
    ensures AllAcceptable(a + [b]) <==> AllAcceptable(a) && Acceptable(b.rows)
    ensures a + ([b] + c) == (a + [b]) + c
  {
    AcceptableAppends(a + [b], c);
    AcceptableAppends(a, [b]);
    assert Acceptable([b][0].rows) <==> Acceptable(b.rows);
    assert a + ([b] + c) == (a + [b]) + c;
  }

  /** 256 rows of at most 64 KiB are at most 16 MiB. */
  lemma {:induction false} SmallRowsFit(rows: seq<Stored>)
    requires forall i :: 0 <= i < |rows| ==> rows[i].bytes <= 0x1_0000
    ensures TotalBytes(rows) <= |rows| * 0x1_0000
    decreases |rows|
  {
    if rows != [] {
      SmallRowsFit(rows[..|rows| - 1]);
    }
  }

  lemma {:induction false} RowIsCounted(rows: seq<Stored>, i: nat)
    requires i < |rows|
    ensures rows[i].bytes <= TotalBytes(rows)
    decreases |rows|
  {
    if i < |rows| - 1 {
      RowIsCounted(rows[..|rows| - 1], i);
    }
  }

  /** A batch of readable rows of at most 64 KiB is handed out; one with an unreadable row, or over 16 MiB, is not. */
  lemma {:induction false} BatchIsAcceptable(t: nat, rows: seq<Stored>, k: nat)
    requires k <= |rows|
    ensures
      var b := BatchAt(t, rows, k).rows;
      && ((forall i :: 0 <= i < |b| ==> b[i].readable && b[i].bytes <= 0x1_0000) ==> Acceptable(b))
      && ((exists i :: 0 <= i < |b| && (!b[i].readable || b[i].bytes > 0x100_0000)) ==> !Acceptable(b))
  {
    var b := BatchAt(t, rows, k).rows;
    if forall i :: 0 <= i < |b| ==> b[i].readable && b[i].bytes <= 0x1_0000 {
      SmallRowsFit(b);
    }
    if i :| 0 <= i < |b| && b[i].bytes > 0x100_0000 {
      RowIsCounted(b, i);
    }
  }

  /** The batches still to come after a batch. */
  function Remaining(tables: seq<seq<Stored>>, t: nat, k: nat): seq<Scanned>
    requires t < |tables| && k <= |tables[t]|
  {
    if BatchAt(t, tables[t], k).last then AllBatches(tables, t + 1, 0)
    else AllBatches(tables, t, BatchEnd(|tables[t]|, k))
  }

  lemma {:induction false} NextOfAll(tables: seq<seq<Stored>>, t: nat, k: nat)
    requires t < |tables| && k <= |tables[t]|
    ensures AllBatches(tables, t, k) == [BatchAt(t, tables[t], k)] + Remaining(tables, t, k)
  {
  }

  /** Consuming a reader to its end gives exactly the batches of all tables, unless one is refused. */
  method ReadAll(tables: seq<seq<Stored>>) returns (r: Result<seq<Scanned>, ReadError>)
    requires forall t {:trigger Sorted(tables[t])} :: 0 <= t < |tables| ==> Sorted(tables[t])
    ensures r.Ok? <==> AllAcceptable(AllBatches(tables, 0, 0))
    ensures r.Ok? ==> r.value == AllBatches(tables, 0, 0)
  {
    var reader := new SnapshotReader(tables);
    var batches: seq<Scanned> := [];
    ghost var k: nat, all := 0, AllBatches(tables, 0, 0);
    ghost var rest := all;
    while true
      invariant reader.Valid() && reader.tables == tables && !reader.ended && reader.ReadSoFar(k)
      invariant all == batches + rest && rest == AllBatches(tables, reader.tableIndex, k)
      invariant AllAcceptable(batches)
      decreases |rest|
    {
      ghost var t: nat, from: nat := reader.tableIndex, k;
      var next := reader.Next(false, k);
      if next.None? {
        assert rest == [] && all == batches;
        return Ok(batches);
      }
      NextOfAll(tables, t, from);
      rest := Remaining(tables, t, from);
      AcceptableSplits(batches, BatchAt(t, tables[t], from), rest);
      if next.value.Err? {
        return Err(next.value.error);
      }
      batches := batches + [next.value.value];
      k := if next.value.value.last then 0 else BatchEnd(|tables[t]|, from);
    }
  }

  // ---------------------------------------------------------------- what the copy receives

  function ImagesOf(rows: seq<Stored>): (images: seq<Image>)
    ensures |images| == |rows|
  {
    seq(|rows|, i requires 0 <= i < |rows| => rows[i].image)
  }

  predicate InScope(scope: seq<TableId>, batches: seq<Scanned>) {
    forall i :: 0 <= i < |batches| ==> batches[i].table < |scope|
  }

  /** The reader's batches as the copy reads them. */
  function Delivered(source: string, scope: seq<TableId>, batches: seq<Scanned>): seq<Result<Batch, ()>>
    requires InScope(scope, batches)
  {
    if batches == [] then []
    else
      var b := batches[0];
      [Ok(Batch(source, scope[b.table], ImagesOf(b.rows), b.last))] + Delivered(source, scope, batches[1..])
  }

  lemma {:induction false} BatchesNameTable(t: nat, rows: seq<Stored>, k: nat)
    requires k <= |rows|
    ensures forall i :: 0 <= i < |TableBatches(t, rows, k)| ==> TableBatches(t, rows, k)[i].table == t
    decreases |rows| - k
  {
    var e := BatchEnd(|rows|, k);
    if e - k == BATCH_ROWS {
      BatchesNameTable(t, rows, e);
    }
  }

  lemma {:induction false} DeliveredFirst(source: string, scope: seq<TableId>, b: Scanned, rest: seq<Scanned>)
    requires b.table < |scope| && InScope(scope, rest)
    ensures InScope(scope, [b] + rest)
    ensures Changes(Delivered(source, scope, [b] + rest))
            == InsertChanges(scope[b.table], ImagesOf(b.rows)) + Changes(Delivered(source, scope, rest))
  {
    var all := [b] + rest;
    assert all[0] == b && all[1..] == rest;
    var first := Ok(Batch(source, scope[b.table], ImagesOf(b.rows), b.last));
    assert Delivered(source, scope, all) == [first] + Delivered(source, scope, rest);
    assert Delivered(source, scope, all)[1..] == Delivered(source, scope, rest);
  }

  lemma {:induction false} Regroup<T>(a: seq<T>, b: seq<T>, c: seq<T>)
    ensures a + (b + c) == (a + b) + c
  {
  }

  lemma {:induction false} DeliveredAppends(source: string, scope: seq<TableId>, a: seq<Scanned>, b: seq<Scanned>)
    requires InScope(scope, a) && InScope(scope, b)
    ensures InScope(scope, a + b)
    ensures Changes(Delivered(source, scope, a + b))
            == Changes(Delivered(source, scope, a)) + Changes(Delivered(source, scope, b))
    decreases |a|
  {
    if a == [] {
      assert a + b == b;
    } else {
      var first, rest := a[0], a[1..];
      DeliveredAppends(source, scope, rest, b);
      DeliveredFirst(source, scope, first, rest);
      DeliveredFirst(source, scope, first, rest + b);
      Regroup([first], rest, b);
      assert [first] + rest == a;
      Regroup(InsertChanges(scope[first.table], ImagesOf(first.rows)), Changes(Delivered(source, scope, rest)),
              Changes(Delivered(source, scope, b)));
    }
  }

  lemma {:induction false} InsertsAppend(t: TableId, a: seq<Stored>, b: seq<Stored>)
    ensures InsertChanges(t, ImagesOf(a + b)) == InsertChanges(t, ImagesOf(a)) + InsertChanges(t, ImagesOf(b))
  {
  }

  lemma {:induction false} TableDelivered(source: string, scope: seq<TableId>, t: nat, rows: seq<Stored>, k: nat)
    requires t < |scope| && k <= |rows|
    ensures InScope(scope, TableBatches(t, rows, k))
    ensures Changes(Delivered(source, scope, TableBatches(t, rows, k))) == InsertChanges(scope[t], ImagesOf(rows[k..]))
    decreases |rows| - k
  {
    BatchesNameTable(t, rows, k);
    var e, batches := BatchEnd(|rows|, k), TableBatches(t, rows, k);
    if e - k == BATCH_ROWS {
      TableDelivered(source, scope, t, rows, e);
      assert batches[1..] == TableBatches(t, rows, e);
      assert rows[k..] == rows[k..e] + rows[e..];
      InsertsAppend(scope[t], rows[k..e], rows[e..]);
    } else {
      assert batches[1..] == [] && Changes(Delivered(source, scope, [])) == [];
    }
  }

  function ScansFrom(tables: seq<seq<Stored>>, t: nat): (scans: seq<seq<Image>>)
    requires t <= |tables|
    ensures |scans| == |tables| - t
    decreases |tables| - t
  {
    if t == |tables| then [] else [ImagesOf(tables[t])] + ScansFrom(tables, t + 1)
  }

  lemma {:induction false} StreamStep(source: string, scope: seq<TableId>, tables: seq<seq<Stored>>, t: nat)
    requires |scope| == |tables| && t < |tables| && InScope(scope, AllBatches(tables, t + 1, 0))
    ensures InScope(scope, AllBatches(tables, t, 0))
    ensures Changes(Delivered(source, scope, AllBatches(tables, t, 0)))
            == InsertChanges(scope[t], ImagesOf(tables[t]))
               + Changes(Delivered(source, scope, AllBatches(tables, t + 1, 0)))
  {
    TableDelivered(source, scope, t, tables[t], 0);
    DeliveredAppends(source, scope, TableBatches(t, tables[t], 0), AllBatches(tables, t + 1, 0));
    assert tables[t][0..] == tables[t];
  }

  lemma {:induction false} InsertsStep(scope: seq<TableId>, tables: seq<seq<Stored>>, t: nat)
    requires |scope| == |tables| && t < |tables|
    ensures AllInserts(scope[t..], ScansFrom(tables, t))
            == InsertChanges(scope[t], ImagesOf(tables[t])) + AllInserts(scope[t + 1..], ScansFrom(tables, t + 1))
  {
    assert scope[t..][1..] == scope[t + 1..] && ScansFrom(tables, t)[1..] == ScansFrom(tables, t + 1);
  }

  /** The whole stream inserts, table by table, exactly the rows of the view in key order. */
  lemma {:induction false} StreamIsScan(source: string, scope: seq<TableId>, tables: seq<seq<Stored>>, t: nat)
    requires |scope| == |tables| && t <= |tables|
    ensures InScope(scope, AllBatches(tables, t, 0))
    ensures Changes(Delivered(source, scope, AllBatches(tables, t, 0))) == AllInserts(scope[t..], ScansFrom(tables, t))
    decreases |tables| - t
  {
    if t < |tables| {
      StreamIsScan(source, scope, tables, t + 1);
      StreamStep(source, scope, tables, t);
      InsertsStep(scope, tables, t);
    }
  }

  /** So a reader over a view gives the copy everything it needs to reproduce the view. */
  lemma {:induction false} ReaderCarriesView(schema: Schema, view: Tables, source: string, scope: seq<TableId>,
                                             tables: seq<seq<Stored>>)
    requires |scope| == |tables| && Scans(schema, view, scope, ScansFrom(tables, 0))
    ensures InScope(scope, AllBatches(tables, 0, 0))
    ensures CarriesView(schema, view, scope, Delivered(source, scope, AllBatches(tables, 0, 0)))
  {
    StreamIsScan(source, scope, tables, 0);
    assert scope[0..] == scope;
  }
}
