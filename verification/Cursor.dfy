/**
 Source cursors and positions: the byte form the decoder writes and the checkpoint writer reads back,
 and the comparison that orders positions of one binlog history.

 A file name is its bytes. Base64url is a library encoding that both sides share, so the cursor is
 modelled as the bytes under it. A name that is not UTF-8 is not ASCII either, and both are refused by
 the same result, so checking ASCII on bytes loses nothing.
 */
module Cursor {
  import opened Outcomes

  type Byte = b: int | 0 <= b < 256

  type File = seq<Byte>

  /** The three ways a checkpoint names its progress. */
  datatype Mode = Gtid | Binlog | PostgresqlLsn

  /** `SourceCursor`, with the value decoded. */
  datatype SourceCursor = MysqlFilePosition(raw: seq<Byte>) | PostgresqlLsnCursor(text: seq<Byte>) | OtherCursor

  datatype Position = Position(file: File, offset: nat)

  datatype CursorError =
    | Unsupported | InvalidCursor | InvalidPosition | Incomparable | PrefixChanged | LsnDisagrees | InvalidLsn

  const U32_MAX := 0xffff_ffff
  const U64_MAX := 0xffff_ffff_ffff_ffff

  const DOT: Byte := 46
  const SLASH: Byte := 47
  const BACKSLASH: Byte := 92
  const PLUS: Byte := 43

  // ---------------------------------------------------------------- the byte form

  /** Four bytes, most significant first; the remainders are the shifted and truncated bytes. */
  function BigEndian(n: nat): (bytes: seq<Byte>)
    requires n <= U32_MAX
    ensures |bytes| == 4
    ensures n == bytes[0] as int * 0x100_0000 + bytes[1] as int * 0x1_0000 + bytes[2] as int * 0x100 + bytes[3] as int
  {
    [n / 256 / 256 / 256, n / 256 / 256 % 256, n / 256 % 256, n % 256]
  }

  function FromBigEndian(bytes: seq<Byte>): nat
    requires |bytes| == 4
  {
    ((bytes[0] as int * 256 + bytes[1] as int) * 256 + bytes[2] as int) * 256 + bytes[3] as int
  }

  /** The decoder's cursor: the file name, a zero byte, and the position in four bytes. */
  function Encode(file: File, offset: nat): SourceCursor
    requires offset <= U32_MAX
  {
    MysqlFilePosition(file + [0] + BigEndian(offset))
  }

  /** The index of the first zero byte, or the length when there is none. */
  function FirstZero(bytes: seq<Byte>): (i: nat)
    ensures i <= |bytes|
    ensures forall k :: 0 <= k < i ==> bytes[k] != 0
    ensures i < |bytes| ==> bytes[i] == 0
  {
    if bytes == [] || bytes[0] == 0 then 0 else 1 + FirstZero(bytes[1..])
  }

  predicate ValidPosition(p: Position) {
    && 0 < |p.file| <= 255
    && (forall i :: 0 <= i < |p.file| ==> p.file[i] < 128 && p.file[i] !in {0, SLASH, BACKSLASH})
    && 4 <= p.offset <= U32_MAX
  }

  /** Reads a cursor of either kind. */
  function FilePosition(cursor: SourceCursor): Result<Position, CursorError> {
    match cursor
    case PostgresqlLsnCursor(text) =>
      var parts := SplitFirst(text, SLASH);
      if parts.None? then Err(InvalidLsn)
      else
        var upper, lower := ParseUnsigned(parts.value.0, 16), ParseUnsigned(parts.value.1, 16);
        if upper.None? || lower.None? || lower.value > U32_MAX then Err(InvalidLsn)
        // The shift drops the bits of `upper` above 32.
        else Ok(Position(text, upper.value % 0x1_0000_0000 * 0x1_0000_0000 + lower.value))
    case MysqlFilePosition(raw) =>
      var split := FirstZero(raw);
      if split == |raw| || |raw| - split - 1 != 4 then Err(InvalidCursor)
      else
        var p := Position(raw[..split], FromBigEndian(raw[split + 1..]));
        if ValidPosition(p) then Ok(p) else Err(InvalidPosition)
    case OtherCursor => Err(Unsupported)
  }

  lemma {:induction false} BigEndianRoundTrip(n: nat)
    requires n <= U32_MAX
    ensures FromBigEndian(BigEndian(n)) == n
  {
  }

  lemma {:induction false} FromBigEndianRoundTrip(bytes: seq<Byte>)
    requires |bytes| == 4
    ensures FromBigEndian(bytes) <= U32_MAX && BigEndian(FromBigEndian(bytes)) == bytes
  {
    var high := bytes[0] as int * 256 + bytes[1] as int;
    var mid := high * 256 + bytes[2] as int;
    assert FromBigEndian(bytes) / 256 == mid && mid / 256 == high && high / 256 == bytes[0];
  }

  /** Reading undoes writing for every valid position; every other file name or position is refused. */
  lemma {:induction false} CursorRoundTrip(file: File, offset: nat)
    requires offset <= U32_MAX
    ensures FilePosition(Encode(file, offset)).Ok?
            <==> 0 < |file| <= 255 && offset >= 4
                 && forall i :: 0 <= i < |file| ==> file[i] < 128 && file[i] != 0 && file[i] != 47 && file[i] != 92
    ensures FilePosition(Encode(file, offset)).Ok? ==>
              FilePosition(Encode(file, offset)).value == Position(file, offset)
  {
    var raw := Encode(file, offset).raw;
    var split := FirstZero(raw);
    assert raw[|file|] == 0;
    BigEndianRoundTrip(offset);
    if split == |file| {
      assert raw[..split] == file && raw[split + 1..] == BigEndian(offset);
    } else {
      assert split < |file| && file[split] == 0 by { assert raw[split] == file[split]; }
    }
  }

  /** And every accepted MySQL cursor is the one the decoder writes for the position read. */
  lemma {:induction false} CursorIsCanonical(raw: seq<Byte>)
    requires FilePosition(MysqlFilePosition(raw)).Ok?
    ensures
      var p := FilePosition(MysqlFilePosition(raw)).value;
      ValidPosition(p) && Encode(p.file, p.offset) == MysqlFilePosition(raw)
  {
    var split := FirstZero(raw);
    FromBigEndianRoundTrip(raw[split + 1..]);
    assert raw == raw[..split] + [0] + raw[split + 1..];
  }

  // ---------------------------------------------------------------- numbers in names

  function DigitValue(b: Byte, radix: nat): Option<nat> {
    var v := if 48 <= b <= 57 then b - 48 else if 97 <= b <= 102 then b - 87 else if 65 <= b <= 70 then b - 55 else 99;
    if v < radix then Some(v) else None
  }

  function ParseDigits(digits: seq<Byte>, radix: nat): Option<nat> {
    if digits == [] then Some(0)
    else
      var front, last := ParseDigits(digits[..|digits| - 1], radix), DigitValue(digits[|digits| - 1], radix);
      if front.None? || last.None? then None else Some(front.value * radix + last.value)
  }

  /** `u64` parsing: an optional plus sign, at least one digit, and no overflow. */
  function ParseUnsigned(text: seq<Byte>, radix: nat): Option<nat> {
    var digits := if text != [] && text[0] == PLUS then text[1..] else text;
    if digits == [] then None
    else
      var n := ParseDigits(digits, radix);
      if n.Some? && n.value <= U64_MAX then n else None
  }

  /** `split_once`. */
  function SplitFirst(text: seq<Byte>, separator: Byte): Option<(seq<Byte>, seq<Byte>)> {
    if text == [] then None
    else if text[0] == separator then Some(([], text[1..]))
    else
      match SplitFirst(text[1..], separator)
      case None => None
      case Some(parts) => Some(([text[0]] + parts.0, parts.1))
  }

  /** `rsplit_once`. */
  function SplitLast(text: seq<Byte>, separator: Byte): Option<(seq<Byte>, seq<Byte>)> {
    if text == [] then None
    else
      var n := |text|;
      if text[n - 1] == separator then Some((text[..n - 1], []))
      else
        match SplitLast(text[..n - 1], separator)
        case None => None
        case Some(parts) => Some((parts.0, parts.1 + [text[n - 1]]))
  }

  // ---------------------------------------------------------------- the comparison

  function CompareNumbers(a: int, b: int): Ordering {
    if a < b then Less else if a == b then Equal else Greater
  }

  /** A binlog file name is a history prefix, a dot and a sequence number. */
  function SplitName(file: File): Option<(seq<Byte>, nat)> {
    match SplitLast(file, DOT)
    case None => None
    case Some(parts) =>
      match ParseUnsigned(parts.1, 10)
      case None => None
      case Some(number) => Some((parts.0, number))
  }

  function ComparePosition(a: Position, b: Position): Result<Ordering, CursorError> {
    if a.file == b.file then Ok(CompareNumbers(a.offset, b.offset))
    else
      var left, right := SplitName(a.file), SplitName(b.file);
      if left.None? || right.None? then Err(Incomparable)
      else if left.value.0 != right.value.0 then Err(PrefixChanged)
      else if left.value.1 != right.value.1 then Ok(CompareNumbers(left.value.1, right.value.1))
      else Ok(CompareNumbers(a.offset, b.offset))
  }

  function ParsePostgresqlLsn(text: seq<Byte>): Option<nat> {
    match SplitFirst(text, SLASH)
    case None => None
    case Some(parts) =>
      var upper, lower := ParseUnsigned(parts.0, 16), ParseUnsigned(parts.1, 16);
      if upper.None? || lower.None? || upper.value > U32_MAX || lower.value > U32_MAX then None
      else Some(upper.value * 0x1_0000_0000 + lower.value)
  }

  /** `mode` is None while the writer has no checkpoint yet. */
  function CompareCheckpointPosition(mode: Option<Mode>, a: Position, b: Position): Result<Ordering, CursorError> {
    if mode == Some(PostgresqlLsn) then
      if ParsePostgresqlLsn(a.file) != Some(a.offset) || ParsePostgresqlLsn(b.file) != Some(b.offset)
      then Err(LsnDisagrees)
      else Ok(CompareNumbers(a.offset, b.offset))
    else ComparePosition(a, b)
  }

  predicate ValidCheckpointPosition(mode: Mode, p: Position) {
    if mode == PostgresqlLsn then ParsePostgresqlLsn(p.file) == Some(p.offset) else ValidPosition(p)
  }

  // ---------------------------------------------------------------- one history is totally ordered

  /** A position the checkpoint of one replication history can hold. */
  predicate InHistory(mode: Mode, prefix: seq<Byte>, p: Position) {
    && ValidCheckpointPosition(mode, p)
    && (mode != PostgresqlLsn ==> SplitName(p.file).Some? && SplitName(p.file).value.0 == prefix)
  }

  /** Where a position lies in its history, as one number. */
  function Rank(mode: Mode, p: Position): nat {
    if mode == PostgresqlLsn then p.offset
    else
      var name := SplitName(p.file);
      (if name.Some? then name.value.1 else 0) * 0x1_0000_0000 + p.offset
  }

  /** Within one history the comparison never fails and is the numeric order of ranks, file number first. */
  lemma {:induction false} ComparisonIsRankOrder(mode: Mode, prefix: seq<Byte>, a: Position, b: Position)
    requires InHistory(mode, prefix, a) && InHistory(mode, prefix, b)
    ensures CompareCheckpointPosition(Some(mode), a, b) == Ok(CompareNumbers(Rank(mode, a), Rank(mode, b)))
  {
    if mode != PostgresqlLsn && a.file != b.file {
      var m, n := SplitName(a.file).value.1, SplitName(b.file).value.1;
      if m < n {
        assert m * 0x1_0000_0000 + a.offset < n * 0x1_0000_0000 + b.offset;
      } else if n < m {
        assert n * 0x1_0000_0000 + b.offset < m * 0x1_0000_0000 + a.offset;
      }
    }
  }

  /** A change of history prefix, or a name without a sequence number, is an error and never an order. */
  lemma {:induction false} OtherHistoryIsRefused(mode: Mode, prefix: seq<Byte>, a: Position, b: Position)
    requires mode != PostgresqlLsn && InHistory(mode, prefix, b) && !InHistory(mode, prefix, a) && ValidPosition(a)
    ensures CompareCheckpointPosition(Some(mode), a, b).Err?
    ensures CompareCheckpointPosition(Some(mode), b, a).Err?
  {
  }

  /**
   A PostgreSQL cursor and the checkpoint's own reading of it agree exactly when the upper half fits in
   32 bits: above that the cursor's shift drops bits, and the checkpoint refuses the position.
   */
  lemma {:induction false} LsnReadingsAgree(text: seq<Byte>)
    requires FilePosition(PostgresqlLsnCursor(text)).Ok?
    ensures
      var p := FilePosition(PostgresqlLsnCursor(text)).value;
      var upper := ParseUnsigned(SplitFirst(text, SLASH).value.0, 16).value;
      ValidCheckpointPosition(PostgresqlLsn, p) <==> upper <= U32_MAX
  {
  }

  lemma {:induction false} SplitAt(front: seq<Byte>, separator: Byte, back: seq<Byte>)
    requires separator !in front
    ensures SplitFirst(front + [separator] + back, separator) == Some((front, back))
    decreases |front|
  {
    var text := front + [separator] + back;
    if front == [] {
      assert text[1..] == back;
    } else {
      assert text[1..] == front[1..] + [separator] + back;
      SplitAt(front[1..], separator, back);
      assert [front[0]] + front[1..] == front;
    }
  }

  /** A one and `zeros` zeros. */
  function OneAndZeros(zeros: nat): (digits: seq<Byte>)
    ensures |digits| == zeros + 1 && digits[0] == 49 && forall i :: 0 < i <= zeros ==> digits[i] == 48
  {
    if zeros == 0 then [49] else OneAndZeros(zeros - 1) + [48]
  }

  function Power16(n: nat): nat {
    if n == 0 then 1 else 16 * Power16(n - 1)
  }

  lemma {:induction false} OneAndZerosValue(zeros: nat)
    ensures ParseDigits(OneAndZeros(zeros), 16) == Some(Power16(zeros))
  {
    if zeros > 0 {
      OneAndZerosValue(zeros - 1);
      assert OneAndZeros(zeros)[..zeros] == OneAndZeros(zeros - 1);
    } else {
      assert OneAndZeros(0)[..0] == [];
    }
  }

  /** `100000000/0`, the first LSN with an upper half above 32 bits, is read as zero and then refused. */
  lemma {:induction false} WideLsnIsRefused()
    ensures
      var text := OneAndZeros(8) + [SLASH] + [48];
      && FilePosition(PostgresqlLsnCursor(text)) == Ok(Position(text, 0))
      && !ValidCheckpointPosition(PostgresqlLsn, Position(text, 0))
  {
    var upper, lower: seq<Byte> := OneAndZeros(8), [48];
    SplitAt(upper, SLASH, lower);
    OneAndZerosValue(8);
    assert Power16(4) == 0x1_0000;
    assert Power16(8) == 0x1_0000_0000;
    assert lower[..0] == [] && ParseDigits(lower, 16) == Some(0);
  }
}
