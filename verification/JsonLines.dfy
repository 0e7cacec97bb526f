/**
 JSON Lines framing: the printer writes a transaction as one begin line, one line per row and one commit
 line; the reader rebuilds transactions from bytes that arrive in any pieces, with temporary ends of input.

 The JSON text itself is a library encoding, modelled as an injective one that writes no newline.
 */
module JsonLines {
  import opened Outcomes

  type Byte = b: int | 0 <= b < 256

  type Bytes = seq<Byte>

  const NEWLINE: Byte := 10
  const MAX_BYTES := 64 * 1024 * 1024

  datatype Format = Current | Previous | Legacy | Historical | OtherFormat

  /** What every line of one transaction repeats. */
  datatype Header = Header(source: string, isMysql: bool, id: string, begin: string, commit: string)

  datatype Payload = TransactionBegin | RowChange(change: string) | TransactionCommit(count: nat)

  datatype Envelope = Envelope(format: Format, header: Header, sequence: nat, payload: Payload)

  datatype Transaction = Transaction(header: Header, changes: seq<string>)

  /** The JSON library, and the validation that every committed transaction must pass. */
  datatype Codec = Codec(
    encode: Envelope -> Bytes, decode: Bytes -> Option<Envelope>, valid: Transaction -> bool)

  function Line(codec: Codec, e: Envelope): Bytes {
    codec.encode(e) + [NEWLINE]
  }

  ghost predicate GoodCodec(codec: Codec) {
    forall e {:trigger RoundTrips(codec, e)} :: RoundTrips(codec, e)
  }

  predicate RoundTrips(codec: Codec, e: Envelope) {
    NEWLINE !in codec.encode(e) && codec.decode(Line(codec, e)) == Some(e)
  }

  // ---------------------------------------------------------------- the printer

  /** The i-th line of a transaction. */
  function EnvelopeAt(t: Transaction, i: nat): Envelope
    requires i <= |t.changes| + 1
  {
    var payload :=
      if i == 0 then TransactionBegin
      else if i <= |t.changes| then RowChange(t.changes[i - 1])
      else TransactionCommit(|t.changes|);
    Envelope(Current, t.header, i, payload)
  }

  function Envelopes(t: Transaction): (es: seq<Envelope>)
    ensures |es| == |t.changes| + 2
  {
    seq(|t.changes| + 2, i requires 0 <= i < |t.changes| + 2 => EnvelopeAt(t, i))
  }

  function AllEnvelopes(ts: seq<Transaction>): seq<Envelope> {
    if ts == [] then [] else AllEnvelopes(ts[..|ts| - 1]) + Envelopes(ts[|ts| - 1])
  }

  function Lines(codec: Codec, es: seq<Envelope>): (lines: seq<Bytes>)
    ensures |lines| == |es|
  {
    seq(|es|, i requires 0 <= i < |es| => Line(codec, es[i]))
  }

  function Join(lines: seq<Bytes>): Bytes {
    if lines == [] then [] else Join(lines[..|lines| - 1]) + lines[|lines| - 1]
  }

  function Printed(codec: Codec, t: Transaction): Bytes {
    Join(Lines(codec, Envelopes(t)))
  }

  function AllPrinted(codec: Codec, ts: seq<Transaction>): Bytes {
    if ts == [] then [] else AllPrinted(codec, ts[..|ts| - 1]) + Printed(codec, ts[|ts| - 1])
  }

  /** The printer's loop. */
  method Print(codec: Codec, t: Transaction) returns (output: Bytes)
    ensures output == Printed(codec, t)
  {
    ghost var lines := Lines(codec, Envelopes(t));
    output := Line(codec, Envelope(Current, t.header, 0, TransactionBegin));
    assert lines[..1] == [output];
    for n := 0 to |t.changes|
      invariant output == Join(lines[..n + 1])
    {
      output := output + Line(codec, Envelope(Current, t.header, n + 1, RowChange(t.changes[n])));
      assert lines[..n + 2][..n + 1] == lines[..n + 1];
    }
    var n := |t.changes|;
    output := output + Line(codec, Envelope(Current, t.header, n + 1, TransactionCommit(n)));
    assert lines[..n + 2][..n + 1] == lines[..n + 1] && lines[..n + 2] == lines;
  }

  // ---------------------------------------------------------------- lines and bytes

  lemma {:induction false} JoinAppends(a: seq<Bytes>, b: seq<Bytes>)
    ensures Join(a + b) == Join(a) + Join(b)
    decreases |b|
  {
    if b == [] {
      assert a + b == a;
    } else {
      assert (a + b)[..|a + b| - 1] == a + b[..|b| - 1];
      JoinAppends(a, b[..|b| - 1]);
    }
  }

  lemma {:induction false} LinesAppend(codec: Codec, a: seq<Envelope>, b: seq<Envelope>)
    ensures Lines(codec, a + b) == Lines(codec, a) + Lines(codec, b)
  {
  }

  /** Printing transactions one after another prints all their lines. */
  lemma {:induction false} PrintedIsJoined(codec: Codec, ts: seq<Transaction>)
    ensures AllPrinted(codec, ts) == Join(Lines(codec, AllEnvelopes(ts)))
    decreases |ts|
  {
    if ts != [] {
      var front, last := ts[..|ts| - 1], ts[|ts| - 1];
      PrintedIsJoined(codec, front);
      LinesAppend(codec, AllEnvelopes(front), Envelopes(last));
      JoinAppends(Lines(codec, AllEnvelopes(front)), Lines(codec, Envelopes(last)));
    }
  }

  /** A newline, and only one, at the end. */
  ghost predicate IsLine(line: Bytes) {
    line != [] && line[|line| - 1] == NEWLINE && NEWLINE !in line[..|line| - 1]
  }

  lemma {:induction false} EncodedIsLine(codec: Codec, e: Envelope)
    requires GoodCodec(codec)
    ensures IsLine(Line(codec, e)) && codec.decode(Line(codec, e)) == Some(e)
  {
    assert RoundTrips(codec, e);
    assert Line(codec, e)[..|Line(codec, e)| - 1] == codec.encode(e);
  }

  /** Bytes read up to the first newline of a line stream are its first line. */
  lemma {:induction false} FirstLine(read: Bytes, line: Bytes, rest: Bytes)
    requires IsLine(line) && read <= line + rest
    ensures NEWLINE !in read ==> |read| < |line|
    ensures IsLine(read) ==> read == line
  {
    var n, m := |line| - 1, |read| - 1;
    assert |read| > n ==> read[n] == NEWLINE;
    assert 0 <= m < n ==> line[..n][m] == read[m];
    assert n < m ==> read[..m][n] == NEWLINE;
    assert m == n ==> read == (line + rest)[..n + 1];
    assert (line + rest)[..n + 1] == line;
  }

  // ---------------------------------------------------------------- what the reader has understood

  function Supported(e: Envelope): bool {
    match e.format
    case Current | Previous => true
    case Legacy | Historical => e.header.isMysql
    case OtherFormat => false
  }

  /**
   A line of input decodes to the envelope, in the current or the previous format, or for MySQL in one of the
   two oldest.
   */
  ghost predicate Says(codec: Codec, line: Bytes, e: Envelope) {
    && IsLine(line)
    && codec.decode(line).Some?
    && (codec.decode(line).value.format in {Current, Previous}
        || (codec.decode(line).value.format in {Legacy, Historical} && e.header.isMysql))
    && codec.decode(line).value.(format := Current) == e
  }

  ghost predicate SaysAll(codec: Codec, lines: seq<Bytes>, es: seq<Envelope>) {
    && |lines| == |es|
    && forall i {:trigger Says(codec, lines[i], es[i])} :: 0 <= i < |lines| ==> Says(codec, lines[i], es[i])
  }

  /** The lines of a transaction whose commit has not arrived. */
  function Partial(pending: Option<Transaction>): seq<Envelope> {
    if pending.None? then [] else Envelopes(pending.value)[..|pending.value.changes| + 1]
  }

  lemma {:induction false} PartialGrows(t: Transaction, change: string)
    ensures Partial(Some(t.(changes := t.changes + [change])))
            == Partial(Some(t)) + [Envelope(Current, t.header, |t.changes| + 1, RowChange(change))]
    ensures Envelopes(t)
            == Partial(Some(t)) + [Envelope(Current, t.header, |t.changes| + 1, TransactionCommit(|t.changes|))]
    ensures Partial(Some(Transaction(t.header, []))) == [Envelope(Current, t.header, 0, TransactionBegin)]
  {
  }

  lemma {:induction false} AllGrow(ts: seq<Transaction>, t: Transaction)
    ensures AllEnvelopes(ts + [t]) == AllEnvelopes(ts) + Envelopes(t)
  {
    assert (ts + [t])[..|ts|] == ts;
  }

  /** The lines of the k-th transaction are within 64 MiB together. */
  ghost predicate BlockFits(lines: seq<Bytes>, ts: seq<Transaction>, k: nat)
    requires k < |ts|
  {
    var base, n := |AllEnvelopes(ts[..k])|, |Envelopes(ts[k])|;
    base + n <= |lines| && |Join(lines[base..base + n])| <= 0x400_0000
  }

  ghost predicate AllFit(codec: Codec, lines: seq<Bytes>, ts: seq<Transaction>) {
    forall k {:trigger BlockFits(lines, ts, k)} :: 0 <= k < |ts| ==> codec.valid(ts[k]) && BlockFits(lines, ts, k)
  }

  /** The lines are, one by one, what a list of valid transactions within the limit says. */
  ghost predicate Carries(codec: Codec, ts: seq<Transaction>, lines: seq<Bytes>) {
    SaysAll(codec, lines, AllEnvelopes(ts)) && AllFit(codec, lines, ts)
  }

  /** The lines say exactly the returned transactions and then the begun one, whose lines are counted. */
  ghost predicate Understood(codec: Codec, lines: seq<Bytes>, returned: seq<Transaction>, pending: Option<Transaction>,
                             bytes: nat)
  {
    && SaysAll(codec, lines, AllEnvelopes(returned) + Partial(pending))
    && AllFit(codec, lines, returned)
    && bytes == |Join(lines[|AllEnvelopes(returned)|..])|
  }

  ghost predicate MayFollow(codec: Codec, pending: Option<Transaction>, e: Envelope) {
    match e.payload
    case TransactionBegin => pending.None? && e.sequence == 0
    case RowChange(_) =>
      pending.Some? && pending.value.header == e.header && e.sequence == |pending.value.changes| + 1
    case TransactionCommit(count) =>
      && pending.Some? && pending.value.header == e.header && e.sequence == |pending.value.changes| + 1
      && count == |pending.value.changes| && codec.valid(pending.value)
  }

  function Grown(pending: Option<Transaction>, e: Envelope): Option<Transaction> {
    if e.payload.TransactionBegin? then Some(Transaction(e.header, []))
    else if e.payload.RowChange? && pending.Some?
    then Some(pending.value.(changes := pending.value.changes + [e.payload.change]))
    else None
  }

  lemma {:induction false} TailGrows(lines: seq<Bytes>, text: Bytes, base: nat)
    requires base <= |lines|
    ensures Join((lines + [text])[base..]) == Join(lines[base..]) + text
  {
    var tail := (lines + [text])[base..];
    assert tail[..|tail| - 1] == lines[base..];
  }

  lemma {:induction false} SaysNext(codec: Codec, lines: seq<Bytes>, es: seq<Envelope>, text: Bytes, e: Envelope)
    requires SaysAll(codec, lines, es) && Says(codec, text, e)
    ensures SaysAll(codec, lines + [text], es + [e])
  {
    forall i | 0 <= i < |lines| + 1
      ensures Says(codec, (lines + [text])[i], (es + [e])[i])
    {
      assert i < |lines| ==> Says(codec, lines[i], es[i]);
    }
  }

  lemma {:induction false} FitGrows(codec: Codec, lines: seq<Bytes>, ts: seq<Transaction>, text: Bytes)
    requires AllFit(codec, lines, ts)
    ensures AllFit(codec, lines + [text], ts)
  {
    forall k | 0 <= k < |ts|
      ensures codec.valid(ts[k]) && BlockFits(lines + [text], ts, k)
    {
      assert BlockFits(lines, ts, k);
      var base, n := |AllEnvelopes(ts[..k])|, |Envelopes(ts[k])|;
      assert (lines + [text])[base..base + n] == lines[base..base + n];
    }
  }

  lemma {:induction false} FitCommits(codec: Codec, lines: seq<Bytes>, ts: seq<Transaction>, t: Transaction)
    requires AllFit(codec, lines, ts) && codec.valid(t) && |lines| == |AllEnvelopes(ts)| + |Envelopes(t)|
    requires |Join(lines[|AllEnvelopes(ts)|..])| <= MAX_BYTES
    ensures AllFit(codec, lines, ts + [t])
  {
    var longer := ts + [t];
    forall k | 0 <= k < |longer|
      ensures codec.valid(longer[k]) && BlockFits(lines, longer, k)
    {
      assert longer[..k] == ts[..k];
      if k < |ts| {
        assert BlockFits(lines, ts, k);
      } else {
        assert ts[..k] == ts;
        assert lines[|AllEnvelopes(ts)|..|lines|] == lines[|AllEnvelopes(ts)|..];
      }
    }
  }

  /**
   Every transaction is what one contiguous block of input lines says: begin, rows 1 to n, commit n + 1,
   one identity.
   */
  lemma {:induction false} ReturnedFromBlock(codec: Codec, ts: seq<Transaction>, lines: seq<Bytes>, k: nat, i: nat)
    requires Carries(codec, ts, lines) && k < |ts| && i < |Envelopes(ts[k])|
    ensures
      var base := |AllEnvelopes(ts[..k])|;
      && base + i < |lines| && IsLine(lines[base + i])
      && Says(codec, lines[base + i], EnvelopeAt(ts[k], i)) && codec.valid(ts[k])
  {
    EnvelopeIndex(ts, k, i);
    var n := |AllEnvelopes(ts[..k])| + i;
    assert Says(codec, lines[n], AllEnvelopes(ts)[n]);
    assert BlockFits(lines, ts, k);
  }

  /** A begin or a row goes on with the begun transaction. */
  lemma {:induction false} LineGrows(codec: Codec, lines: seq<Bytes>, returned: seq<Transaction>,
                                     pending: Option<Transaction>,
                                     bytes: nat, text: Bytes, e: Envelope)
    requires Understood(codec, lines, returned, pending, bytes)
    requires IsLine(text) && codec.decode(text) == Some(e) && Supported(e)
    requires MayFollow(codec, pending, e) && !e.payload.TransactionCommit?
    ensures Understood(codec, lines + [text], returned, Grown(pending, e), bytes + |text|)
  {
    var es, said := AllEnvelopes(returned), e.(format := Current);
    assert Partial(Grown(pending, e)) == Partial(pending) + [said] by {
      PartialGrows(if pending.Some? then pending.value else Transaction(e.header, []),
                   if e.payload.RowChange? then e.payload.change else "");
    }
    SaysNext(codec, lines, es + Partial(pending), text, said);
    assert es + Partial(pending) + [said] == es + Partial(Grown(pending, e));
    TailGrows(lines, text, |es|);
    FitGrows(codec, lines, returned, text);
  }

  /** A commit completes it. */
  lemma {:induction false} LineCommits(codec: Codec, lines: seq<Bytes>, returned: seq<Transaction>, t: Transaction,
                                       bytes: nat, text: Bytes, e: Envelope)
    requires Understood(codec, lines, returned, Some(t), bytes)
    requires IsLine(text) && codec.decode(text) == Some(e) && Supported(e) && bytes + |text| <= MAX_BYTES
    requires MayFollow(codec, Some(t), e) && e.payload.TransactionCommit?
    ensures Understood(codec, lines + [text], returned + [t], None, 0)
  {
    var es, said := AllEnvelopes(returned), e.(format := Current);
    PartialGrows(t, "");
    AllGrow(returned, t);
    SaysNext(codec, lines, es + Partial(Some(t)), text, said);
    assert es + Partial(Some(t)) + [said] == AllEnvelopes(returned + [t]) + Partial(None);
    assert (lines + [text])[|AllEnvelopes(returned + [t])|..] == [];
    TailGrows(lines, text, |es|);
    FitGrows(codec, lines, returned, text);
    FitCommits(codec, lines + [text], returned, t);
  }

  // ---------------------------------------------------------------- reading what was printed

  ghost predicate Printable(codec: Codec, ts: seq<Transaction>) {
    GoodCodec(codec) && forall i {:trigger Fits(codec, ts[i])} :: 0 <= i < |ts| ==> Fits(codec, ts[i])
  }

  ghost predicate Fits(codec: Codec, t: Transaction) {
    codec.valid(t) && |Printed(codec, t)| <= MAX_BYTES
  }

  /** Some transactions are complete, and the next one may have been begun. */
  ghost predicate Begun(ts: seq<Transaction>, returned: seq<Transaction>, pending: Option<Transaction>) {
    && returned <= ts
    && (pending.Some? ==>
          && |returned| < |ts| && pending.value.header == ts[|returned|].header
          && pending.value.changes <= ts[|returned|].changes)
  }

  /** The lines read are the first ones of a stream, and the bytes ahead are the others. */
  ghost predicate Ahead(all: seq<Bytes>, lines: seq<Bytes>, ahead: Bytes) {
    lines <= all && ahead == Join(all[|lines|..])
  }

  /** The bytes read and still to come carry the transactions, and so far they were understood. */
  ghost predicate Track(codec: Codec, ts: seq<Transaction>, all: seq<Bytes>, lines: seq<Bytes>,
                        returned: seq<Transaction>,
                        pending: Option<Transaction>, ahead: Bytes)
  {
    && Carries(codec, ts, all) && Begun(ts, returned, pending)
    && Ahead(all, lines, ahead)
  }

  lemma {:induction false} EnvelopeIndex(ts: seq<Transaction>, k: nat, i: nat)
    requires k < |ts| && i < |Envelopes(ts[k])|
    ensures |AllEnvelopes(ts[..k])| + i < |AllEnvelopes(ts)|
    ensures AllEnvelopes(ts)[|AllEnvelopes(ts[..k])| + i] == EnvelopeAt(ts[k], i)
    decreases |ts|
  {
    var front := ts[..|ts| - 1];
    if k < |front| {
      assert front[..k] == ts[..k];
      EnvelopeIndex(front, k, i);
    } else {
      assert ts[..k] == front;
    }
  }

  lemma {:induction false} JoinFirst(lines: seq<Bytes>)
    requires lines != []
    ensures Join(lines) == lines[0] + Join(lines[1..])
  {
    JoinAppends([lines[0]], lines[1..]);
    assert lines == [lines[0]] + lines[1..];
    assert Join([lines[0]]) == Join([]) + lines[0];
  }

  lemma {:induction false} JoinPrefix(lines: seq<Bytes>, n: nat)
    requires n <= |lines|
    ensures |Join(lines[..n])| <= |Join(lines)|
  {
    JoinAppends(lines[..n], lines[n..]);
    assert lines == lines[..n] + lines[n..];
  }

  /** The envelopes of one transaction, in place. */
  lemma {:induction false} EnvelopeBlock(ts: seq<Transaction>, k: nat)
    requires k < |ts|
    ensures
      var base, n := |AllEnvelopes(ts[..k])|, |Envelopes(ts[k])|;
      base + n <= |AllEnvelopes(ts)| && AllEnvelopes(ts)[base..base + n] == Envelopes(ts[k])
    decreases |ts|
  {
    var front := ts[..|ts| - 1];
    if k < |front| {
      assert front[..k] == ts[..k];
      EnvelopeBlock(front, k);
    } else {
      assert ts[..k] == front;
    }
  }

  lemma {:induction false} LinesSlice(codec: Codec, es: seq<Envelope>, a: nat, b: nat)
    requires a <= b <= |es|
    ensures Lines(codec, es)[a..b] == Lines(codec, es[a..b])
  {
  }

  lemma {:induction false} PrefixSize(lines: seq<Bytes>, i: nat)
    requires i < |lines|
    ensures |Join(lines[..i])| + |lines[i]| <= |Join(lines)|
  {
    JoinPrefix(lines, i + 1);
    assert lines[..i + 1][..i] == lines[..i];
  }

  lemma {:induction false} SliceSize(all: seq<Bytes>, base: nat, n: nat, i: nat)
    requires base + n <= |all| && i < n
    ensures |Join(all[base..base + i])| + |all[base + i]| <= |Join(all[base..base + n])|
  {
    var block := all[base..base + n];
    PrefixSize(block, i);
    assert block[..i] == all[base..base + i];
  }

  lemma {:induction false} JoinOfNone(all: seq<Bytes>)
    ensures Join(all[|all|..]) == []
  {
  }

  lemma {:induction false} MoreLines(all: seq<Bytes>, n: nat, ahead: Bytes)
    requires n <= |all| && ahead == Join(all[n..]) && ahead != []
    ensures n < |all|
  {
    if n == |all| {
      JoinOfNone(all);
    }
  }

  /** Where the reader is: in transaction `|returned|`, past the lines of what it has begun. */
  lemma {:induction false} NextPlace(ts: seq<Transaction>, n: nat, returned: seq<Transaction>,
                                     pending: Option<Transaction>)
    requires Begun(ts, returned, pending)
    requires n == |AllEnvelopes(returned)| + |Partial(pending)| && n < |AllEnvelopes(ts)|
    ensures |returned| < |ts| && |Partial(pending)| < |Envelopes(ts[|returned|])|
    ensures AllEnvelopes(ts)[n] == EnvelopeAt(ts[|returned|], |Partial(pending)|)
  {
    assert ts[..|returned|] == returned;
    assert |returned| == |ts| ==> returned == ts;
    EnvelopeIndex(ts, |returned|, |Partial(pending)|);
  }

  lemma {:induction false} NextFollows(codec: Codec, t: Transaction, pending: Option<Transaction>)
    requires codec.valid(t)
    requires pending.Some? ==> pending.value.header == t.header && pending.value.changes <= t.changes
    ensures |Partial(pending)| <= |t.changes| + 1
    ensures MayFollow(codec, pending, EnvelopeAt(t, |Partial(pending)|))
  {
    if pending.Some? && |pending.value.changes| == |t.changes| {
      assert pending.value == t;
    }
  }

  /** The next line of good input fits within the limit, together with its transaction's lines so far. */
  lemma {:induction false} NextSize(ts: seq<Transaction>, all: seq<Bytes>, lines: seq<Bytes>,
                                    returned: seq<Transaction>,
                                    i: nat)
    requires returned < ts && BlockFits(all, ts, |returned|) && i < |Envelopes(ts[|returned|])|
    requires lines <= all && |lines| == |AllEnvelopes(returned)| + i
    ensures |lines| < |all|
    ensures |Join(lines[|AllEnvelopes(returned)|..])| + |all[|lines|]| <= MAX_BYTES
  {
    var base := |AllEnvelopes(returned)|;
    assert ts[..|returned|] == returned;
    SliceSize(all, base, |Envelopes(ts[|returned|])|, i);
    assert lines[base..] == all[base..base + i];
  }

  /** The rest of the lines is the next line and what follows it. */
  lemma {:induction false} SplitNext(all: seq<Bytes>, n: nat)
    requires n < |all|
    ensures Join(all[n..]) == all[n] + Join(all[n + 1..])
  {
    JoinFirst(all[n..]);
    assert all[n..][1..] == all[n + 1..];
  }

  /** What follows an accepted line on printed input. */
  function Done(pending: Option<Transaction>, e: Envelope): seq<Transaction> {
    if e.payload.TransactionCommit? && pending.Some? then [pending.value] else []
  }

  lemma {:induction false} BegunGoesOn(ts: seq<Transaction>, returned: seq<Transaction>,
                                       pending: Option<Transaction>, e: Envelope)
    requires Begun(ts, returned, pending) && |returned| < |ts| && |Partial(pending)| < |Envelopes(ts[|returned|])|
    requires e == EnvelopeAt(ts[|returned|], |Partial(pending)|)
    ensures Begun(ts, returned + Done(pending, e), Grown(pending, e))
  {
    var t := ts[|returned|];
    if pending.Some? && |pending.value.changes| == |t.changes| {
      assert pending.value == t;
    }
  }

  lemma {:induction false} AheadSplits(codec: Codec, es: seq<Envelope>, all: seq<Bytes>, lines: seq<Bytes>,
                                       ahead: Bytes)
    requires SaysAll(codec, all, es) && Ahead(all, lines, ahead) && ahead != []
    ensures |lines| < |all|
    ensures
      var text := all[|lines|];
      && Says(codec, text, es[|lines|]) && text <= ahead
      && Ahead(all, lines + [text], ahead[|text|..])
  {
    MoreLines(all, |lines|, ahead);
    SplitNext(all, |lines|);
    assert Says(codec, all[|lines|], es[|lines|]);
    assert lines + [all[|lines|]] == all[..|lines| + 1];
  }

  /** What one buffer brought. */
  datatype Piece = EndOfInput | TooLong(read: Bytes) | More | Complete(text: Bytes)

  /** Bytes of one line that are too many. */
  ghost predicate OverLimit(read: Bytes, ahead: Bytes, bytes: nat) {
    read != [] && read <= ahead && NEWLINE !in read[..|read| - 1] && bytes + |read| > MAX_BYTES
  }

  lemma {:induction false} NeverTooLong(codec: Codec, ts: seq<Transaction>, all: seq<Bytes>, lines: seq<Bytes>,
                                        returned: seq<Transaction>, pending: Option<Transaction>, bytes: nat,
                                        ahead: Bytes, read: Bytes)
    requires Carries(codec, ts, all) && Begun(ts, returned, pending) && Ahead(all, lines, ahead)
    requires Understood(codec, lines, returned, pending, bytes)
    requires read != [] && read <= ahead && NEWLINE !in read[..|read| - 1]
    ensures bytes + |read| <= MAX_BYTES
  {
    AheadSplits(codec, AllEnvelopes(ts), all, lines, ahead);
    var text := all[|lines|];
    NextPlace(ts, |lines|, returned, pending);
    assert BlockFits(all, ts, |returned|);
    NextSize(ts, all, lines, returned, |Partial(pending)|);
    assert ahead == text + ahead[|text|..];
    FirstLine(read[..|read| - 1], text, ahead[|text|..]);
  }

  lemma {:induction false} LineIsNext(codec: Codec, es: seq<Envelope>, all: seq<Bytes>, lines: seq<Bytes>, ahead: Bytes,
                                      text: Bytes, rest: Bytes)
    requires SaysAll(codec, all, es) && Ahead(all, lines, ahead) && ahead == text + rest && IsLine(text)
    ensures |lines| < |es| && Says(codec, text, es[|lines|])
    ensures Ahead(all, lines + [text], rest)
  {
    AheadSplits(codec, es, all, lines, ahead);
    var next := all[|lines|];
    assert ahead == next + ahead[|next|..];
    FirstLine(text, next, ahead[|next|..]);
    assert ahead[|text|..] == rest;
  }

  lemma {:induction false} PlaceGoesOn(codec: Codec, ts: seq<Transaction>, n: nat, returned: seq<Transaction>,
                                       pending: Option<Transaction>, e: Envelope)
    requires Begun(ts, returned, pending) && forall k :: 0 <= k < |ts| ==> codec.valid(ts[k])
    requires n == |AllEnvelopes(returned)| + |Partial(pending)| && n < |AllEnvelopes(ts)|
    requires e.(format := Current) == AllEnvelopes(ts)[n]
    ensures MayFollow(codec, pending, e)
    ensures Begun(ts, returned + Done(pending, e), Grown(pending, e))
  {
    NextPlace(ts, n, returned, pending);
    NextFollows(codec, ts[|returned|], pending);
    BegunGoesOn(ts, returned, pending, e.(format := Current));
  }

  /** On good input a piece is never too long, and a complete line is the next one. */
  lemma {:induction false} PieceFits(codec: Codec, ts: seq<Transaction>, all: seq<Bytes>, lines: seq<Bytes>,
                                     returned: seq<Transaction>, pending: Option<Transaction>, bytes: nat, ahead: Bytes,
                                     piece: Piece, rest: Bytes)
    requires Carries(codec, ts, all) && Begun(ts, returned, pending) && Ahead(all, lines, ahead)
    requires Understood(codec, lines, returned, pending, bytes)
    requires piece.TooLong? ==> OverLimit(piece.read, ahead, bytes)
    requires piece.Complete? ==> piece.text + rest == ahead && IsLine(piece.text)
    ensures !piece.TooLong?
    ensures piece.Complete? ==>
              && codec.decode(piece.text).Some? && Supported(codec.decode(piece.text).value)
              && MayFollow(codec, pending, codec.decode(piece.text).value)
              && Ahead(all, lines + [piece.text], rest)
              && var e := codec.decode(piece.text).value;
                 Begun(ts, returned + Done(pending, e), Grown(pending, e))
  {
    if piece.TooLong? {
      NeverTooLong(codec, ts, all, lines, returned, pending, bytes, ahead, piece.read);
    } else if piece.Complete? {
      LineIsNext(codec, AllEnvelopes(ts), all, lines, ahead, piece.text, rest);
      forall k | 0 <= k < |ts|
        ensures codec.valid(ts[k])
      {
        assert BlockFits(all, ts, k);
      }
      PlaceGoesOn(codec, ts, |lines|, returned, pending, codec.decode(piece.text).value);
    }
  }

  /** Cutting a piece off the input keeps the order of the bytes. */
  lemma {:induction false} PieceOf(line: Bytes, rest: Bytes, available: Bytes, length: nat)
    requires available <= rest && 0 < length <= |available|
    requires NEWLINE !in line && NEWLINE !in available[..length - 1]
    ensures (line + available[..length]) + rest[length..] == line + rest
    ensures
      var read := line + available[..length];
      && read != [] && read <= line + rest && NEWLINE !in read[..|read| - 1]
      && (available[length - 1] == NEWLINE ==> IsLine(read))
      && (available[length - 1] != NEWLINE ==> NEWLINE !in read)
  {
    var read := line + available[..length];
    assert read[..|read| - 1] == line + available[..length - 1];
    assert read == read[..|read| - 1] + [available[length - 1]];
    assert available[..length] == rest[..length];
  }

  lemma {:induction false} StreamMoves(lines: seq<Bytes>, ahead: Bytes, line: Bytes, rest: Bytes, piece: Piece)
    requires piece.More? ==> line + rest == ahead
    requires piece.Complete? ==> line == [] && piece.text + rest == ahead
    ensures piece.More? ==> Join(lines) + (line + rest) == Join(lines) + ahead
    ensures piece.Complete? ==> Join(lines + [piece.text]) + ([] + rest) == Join(lines) + ahead
  {
    if piece.Complete? {
      var longer := lines + [piece.text];
      assert longer[..|longer| - 1] == lines;
      assert [] + rest == rest;
      assert (Join(lines) + piece.text) + rest == Join(lines) + (piece.text + rest);
    }
  }

  /**
   The input: what is buffered and not consumed, and the pieces that reads bring, from `next` on still to
   come. An empty piece is a temporary end of input; so is the absence of any more pieces.
   */
  class Input {
    const pieces: seq<Bytes>
    var buffer: Bytes
    var next: nat

    constructor (pieces: seq<Bytes>)
      ensures Valid() && this.pieces == pieces && buffer == [] && next == 0
    {
      this.pieces, buffer, next := pieces, [], 0;
    }

    ghost predicate Valid()
      reads this
    {
      next <= |pieces|
    }

    ghost function Rest(): Bytes
      requires Valid()
      reads this
    {
      buffer + Join(pieces[next..])
    }

    /** Everything up to a temporary end of input has been consumed. */
    ghost predicate AtEnd()
      reads this
    {
      buffer == [] && Valid() && (next == |pieces| || (next > 0 && pieces[next - 1] == []))
    }

    /** What is buffered, after a read when that is nothing. */
    method FillBuf() returns (available: Bytes)
      requires Valid()
      modifies this
      ensures Valid() && available == buffer && Rest() == old(Rest())
      ensures old(next) <= next && (available == [] ==> AtEnd() && (next == |pieces| || old(next) < next))
    {
      if buffer == [] && next < |pieces| {
        JoinFirst(pieces[next..]);
        assert pieces[next..][1..] == pieces[next + 1..];
        buffer, next := pieces[next], next + 1;
      }
      return buffer;
    }

    method Consume(n: nat)
      requires Valid() && n <= |buffer|
      modifies this`buffer
      ensures Valid() && buffer == old(buffer)[n..] && Rest() == old(Rest())[n..]
    {
      buffer := buffer[n..];
    }
  }

  /** The length of a buffer up to and with its first newline, or all of it. */
  method LineLength(available: Bytes) returns (length: nat)
    requires available != []
    ensures 0 < length <= |available| && NEWLINE !in available[..length - 1]
    ensures available[length - 1] != NEWLINE ==> length == |available|
  {
    length := 0;
    while length < |available| && available[length] != NEWLINE
      invariant length <= |available| && NEWLINE !in available[..length]
    {
      length := length + 1;
    }
    if length < |available| {
      length := length + 1;
    }
  }

  class JsonReader {
    const codec: Codec
    const input: Input
    var line: Bytes
    var pending: Option<Transaction>
    var bytes: nat
    var failed: bool
    ghost var lines: seq<Bytes>
    ghost var returned: seq<Transaction>

    constructor (codec: Codec, input: Input)
      requires input.Valid()
      ensures this.codec == codec && this.input == input && Valid() && !failed
      ensures lines == [] && returned == [] && line == [] && pending == None
    {
      this.codec, this.input := codec, input;
      line, pending, bytes, failed, lines, returned := [], None, 0, false, [], [];
    }

    ghost predicate Valid()
      reads this, input
    {
      && input.Valid()
      && (!failed ==>
            Understood(codec, lines, returned, pending, bytes) && NEWLINE !in line && bytes + |line| <= MAX_BYTES)
    }

    /** The line may come next: right format, right identity and number, a commit that matches and validates. */
    ghost predicate Continues(text: Bytes)
      reads this
    {
      && codec.decode(text).Some? && Supported(codec.decode(text).value)
      && MayFollow(codec, pending, codec.decode(text).value)
    }

    /** One complete line: decode it, check it against the transaction it belongs to, and keep it. */
    method HandleLine(text: Bytes) returns (r: Result<Option<Transaction>, ()>)
      requires Valid() && !failed && line == [] && IsLine(text) && bytes + |text| <= MAX_BYTES
      modifies this`pending, this`bytes, this`lines, this`returned
      ensures r.Ok? <==> old(Continues(text))
      ensures r.Ok? ==> Valid() && lines == old(lines) + [text]
      ensures r.Ok? ==>
                var e := codec.decode(text).value;
                && r.value == (if e.payload.TransactionCommit? then old(pending) else None)
                && returned == old(returned) + Done(old(pending), e) && pending == Grown(old(pending), e)
    {
      var decoded := codec.decode(text);
      if decoded.None? || !Supported(decoded.value) {
        return Err(());
      }
      var e := decoded.value;
      if pending.Some? && (pending.value.header != e.header || e.sequence != |pending.value.changes| + 1) {
        return Err(());
      }
      r := HandlePayload(e, text);
    }

    method HandlePayload(e: Envelope, text: Bytes) returns (r: Result<Option<Transaction>, ()>)
      requires Valid() && !failed && line == [] && IsLine(text) && bytes + |text| <= MAX_BYTES
      requires codec.decode(text) == Some(e) && Supported(e)
      requires pending.Some? ==> pending.value.header == e.header && e.sequence == |pending.value.changes| + 1
      modifies this`pending, this`bytes, this`lines, this`returned
      ensures r.Ok? <==> MayFollow(codec, old(pending), e)
      ensures r.Ok? ==> Valid() && lines == old(lines) + [text]
      ensures r.Ok? ==> r.value == (if e.payload.TransactionCommit? then old(pending) else None)
      ensures r.Ok? ==> returned == old(returned) + Done(old(pending), e) && pending == Grown(old(pending), e)
    {
      ghost var ls, ps, bs := lines, pending, bytes;
      bytes := bytes + |text|;
      lines := lines + [text];
      match e.payload {
        case TransactionBegin =>
          if pending.Some? || e.sequence != 0 {
            return Err(());
          }
          pending := Some(Transaction(e.header, []));
          LineGrows(codec, ls, returned, ps, bs, text, e);
        case RowChange(change) =>
          if pending.None? {
            return Err(());
          }
          pending := Some(pending.value.(changes := pending.value.changes + [change]));
          LineGrows(codec, ls, returned, ps, bs, text, e);
        case TransactionCommit(count) =>
          if pending.None? {
            return Err(());
          }
          var t := pending.value;
          pending := None;
          if |t.changes| != count || !codec.valid(t) {
            return Err(());
          }
          LineCommits(codec, ls, returned, t, bs, text, e);
          bytes := 0;
          returned := returned + [t];
          return Ok(Some(t));
      }
      return Ok(None);
    }

    /** The reader is in the middle of input whose lines carry `ts`. */
    ghost predicate Follows(ts: seq<Transaction>, all: seq<Bytes>)
      requires input.Valid()
      reads this, input
    {
      !failed && Track(codec, ts, all, lines, returned, pending, line + input.Rest())
    }

    /** All bytes read or still to come, in order. */
    ghost function Stream(): Bytes
      requires input.Valid()
      reads this, input
    {
      Join(lines) + (line + input.Rest())
    }

    /** Takes bytes up to the end of the buffer or of the line; nothing only at an end of input. */
    method NextPiece() returns (r: Piece)
      requires Valid() && !failed
      modifies this`line, input
      ensures input.Valid() && old(input.next) <= input.next
      ensures if r.EndOfInput?
              then line == old(line) && input.Rest() == old(input.Rest())
                   && input.AtEnd() && (input.next == |input.pieces| || old(input.next) < input.next)
              else if r.TooLong? then input.Rest() == old(input.Rest()) else |input.Rest()| < |old(input.Rest())|
      ensures r.More? ==> NEWLINE !in line && bytes + |line| <= MAX_BYTES
      ensures r.More? ==> line + input.Rest() == old(line + input.Rest())
      ensures r.Complete? ==> line == [] && r.text + input.Rest() == old(line + input.Rest()) && IsLine(r.text)
      ensures r.Complete? ==> bytes + |r.text| <= MAX_BYTES
      ensures r.TooLong? ==> line == old(line) && OverLimit(r.read, old(line + input.Rest()), bytes)
    {
      var available := input.FillBuf();
      if available == [] {
        return EndOfInput;
      }
      var length := LineLength(available);
      PieceOf(line, input.Rest(), available, length);
      if length > MAX_BYTES - (bytes + |line|) {
        return TooLong(line + available[..length]);
      }
      line := line + available[..length];
      input.Consume(length);
      if available[length - 1] != NEWLINE {
        return More;
      }
      var text := line;
      line := [];
      return Complete(text);
    }

    /**
     Refuses too many bytes, keeps a part of a line, and handles a complete one; `ahead` was to come before
     the piece.
     */
    method HandlePiece(piece: Piece, ghost ahead: Bytes, ghost ts: seq<Transaction>, ghost all: seq<Bytes>)
      returns (r: Result<Option<Transaction>, ()>)
      requires Valid() && !failed && !piece.EndOfInput?
      requires piece.TooLong? ==> OverLimit(piece.read, ahead, bytes)
      requires piece.More? ==> line + input.Rest() == ahead
      requires piece.Complete? ==> line == [] && piece.text + input.Rest() == ahead && IsLine(piece.text)
      requires piece.Complete? ==> bytes + |piece.text| <= MAX_BYTES
      modifies this`pending, this`bytes, this`lines, this`returned
      ensures piece.TooLong? ==> r.Err?
      ensures r.Ok? ==> Valid() && Stream() == old(Join(lines)) + ahead
      ensures r.Ok? ==> returned == old(returned) + (if r.value.Some? then [r.value.value] else [])
      ensures r.Ok? && r.value.Some? ==> piece.Complete?
      ensures old(Track(codec, ts, all, lines, returned, pending, ahead)) ==> r.Ok? && Follows(ts, all)
    {
      StreamMoves(lines, ahead, line, input.Rest(), piece);
      if Track(codec, ts, all, lines, returned, pending, ahead) {
        PieceFits(codec, ts, all, lines, returned, pending, bytes, ahead, piece, input.Rest());
      }
      if piece.TooLong? {
        return Err(());
      }
      if piece.More? {
        return Ok(None);
      }
      assert [] + input.Rest() == input.Rest();
      r := HandleLine(piece.text);
    }

    /**
     Reads to the next commit or a temporary end of input, and stops for nothing else: input that carries
     transactions is never refused. `ts` and `all` are any transactions and lines that carry them.
     */
    method ReadTransaction(ghost ts: seq<Transaction>, ghost all: seq<Bytes>)
      returns (r: Result<Option<Transaction>, ()>)
      requires Valid() && !failed
      modifies this`line, this`pending, this`bytes, this`lines, this`returned, input
      ensures r.Ok? ==> Valid() && Stream() == old(Stream())
      ensures r.Ok? ==> returned == old(returned) + (if r.value.Some? then [r.value.value] else [])
      ensures r.Ok? && r.value.Some? ==> |input.Rest()| < |old(input.Rest())|
      ensures r == Ok(None) ==> input.AtEnd() && (input.next == |input.pieces| || old(input.next) < input.next)
      ensures input.Valid() && old(input.next) <= input.next && |input.Rest()| <= |old(input.Rest())|
      ensures old(Follows(ts, all)) ==> r.Ok? && Follows(ts, all)
    {
      ghost var good, stream, size := Follows(ts, all), Stream(), |input.Rest()|;
      while true
        invariant Valid() && Stream() == stream && returned == old(returned) && (good ==> Follows(ts, all))
        invariant old(input.next) <= input.next && |input.Rest()| <= size
        decreases |input.Rest()|
      {
        ghost var ahead := line + input.Rest();
        var piece := NextPiece();
        if piece.EndOfInput? {
          return Ok(None);
        }
        var result := HandlePiece(piece, ahead, ts, all);
        if result.Err? || result.value.Some? {
          return result;
        }
      }
    }

    /** Any error is final. */
    method NextTransaction(ghost ts: seq<Transaction>, ghost all: seq<Bytes>)
      returns (r: Result<Option<Transaction>, ()>)
      requires Valid()
      modifies this`line, this`pending, this`bytes, this`failed, this`lines, this`returned, input
      ensures Valid() && (failed <==> r.Err?)
      ensures old(failed) ==> failed && returned == old(returned) && input.Rest() == old(input.Rest())
      ensures r.Ok? ==> Stream() == old(Stream())
      ensures r.Ok? ==> returned == old(returned) + (if r.value.Some? then [r.value.value] else [])
      ensures r.Ok? && r.value.Some? ==> |input.Rest()| < |old(input.Rest())|
      ensures r == Ok(None) ==> input.AtEnd() && (input.next == |input.pieces| || old(input.next) < input.next)
      ensures input.Valid() && old(input.next) <= input.next && |input.Rest()| <= |old(input.Rest())|
      ensures old(Follows(ts, all)) ==> r.Ok? && Follows(ts, all)
    {
      if failed {
        return Err(());
      }
      r := ReadTransaction(ts, all);
      if r.Err? {
        failed := true;
      }
    }

    /** Finite input must end on a newline and a complete commit. */
    method Finish() returns (ok: bool)
      requires Valid()
      ensures ok <==> !failed && pending.None? && line == []
    {
      return !failed && pending.None? && line == [];
    }
  }

  // ---------------------------------------------------------------- whole inputs

  /** Where all bytes have been read, everything the lines carry has been returned. */
  lemma {:induction false} AllReturned(codec: Codec, ts: seq<Transaction>, all: seq<Bytes>, lines: seq<Bytes>,
                                       returned: seq<Transaction>, pending: Option<Transaction>, bytes: nat,
                                       line: Bytes)
    requires Carries(codec, ts, all) && Begun(ts, returned, pending) && Ahead(all, lines, line)
    requires Understood(codec, lines, returned, pending, bytes) && NEWLINE !in line
    ensures line == [] && returned == ts && pending.None?
  {
    NoLineInside(codec, AllEnvelopes(ts), all, lines, line);
    NothingAhead(codec, AllEnvelopes(ts), all, lines);
    if |returned| < |ts| {
      LinesMissing(ts, returned, pending);
    }
  }

  lemma {:induction false} NoLineInside(codec: Codec, es: seq<Envelope>, all: seq<Bytes>, lines: seq<Bytes>,
                                        line: Bytes)
    requires SaysAll(codec, all, es) && Ahead(all, lines, line)
    ensures line == [] || NEWLINE in line
  {
    if line != [] {
      AheadSplits(codec, es, all, lines, line);
      var n := |all[|lines|]| - 1;
      assert line[n] == NEWLINE;
    }
  }

  lemma {:induction false} NothingAhead(codec: Codec, es: seq<Envelope>, all: seq<Bytes>, lines: seq<Bytes>)
    requires SaysAll(codec, all, es) && Ahead(all, lines, [])
    ensures |lines| == |es|
  {
    if |lines| < |es| {
      assert Says(codec, all[|lines|], es[|lines|]);
      SplitNext(all, |lines|);
    }
  }

  lemma {:induction false} LinesMissing(ts: seq<Transaction>, returned: seq<Transaction>, pending: Option<Transaction>)
    requires Begun(ts, returned, pending) && |returned| < |ts|
    ensures |AllEnvelopes(returned)| + |Partial(pending)| < |AllEnvelopes(ts)|
  {
    EnvelopeBlock(ts, |returned|);
    assert ts[..|returned|] == returned;
  }

  lemma {:induction false} TrackStarts(codec: Codec, ts: seq<Transaction>, all: seq<Bytes>, rest: Bytes)
    requires Carries(codec, ts, all) && rest == Join(all)
    ensures Track(codec, ts, all, [], [], None, [] + rest)
  {
    assert all[0..] == all;
    assert [] + rest == rest;
  }

  /** The input begins with lines that carry the transactions. */
  ghost predicate CarriedBy(codec: Codec, input: Bytes, ts: seq<Transaction>) {
    exists lines: seq<Bytes> :: Carries(codec, ts, lines) && Join(lines) <= input
  }

  lemma {:induction false} SaysPrefix(codec: Codec, lines: seq<Bytes>, es: seq<Envelope>, more: seq<Envelope>)
    requires SaysAll(codec, lines, es + more)
    ensures SaysAll(codec, lines[..|es|], es)
  {
    forall i | 0 <= i < |es|
      ensures Says(codec, lines[..|es|][i], es[i])
    {
      assert Says(codec, lines[i], (es + more)[i]);
    }
  }

  lemma {:induction false} FitShrinks(codec: Codec, lines: seq<Bytes>, ts: seq<Transaction>)
    requires AllFit(codec, lines, ts) && |AllEnvelopes(ts)| <= |lines|
    ensures AllFit(codec, lines[..|AllEnvelopes(ts)|], ts)
  {
    var done := lines[..|AllEnvelopes(ts)|];
    forall k | 0 <= k < |ts|
      ensures codec.valid(ts[k]) && BlockFits(done, ts, k)
    {
      assert BlockFits(lines, ts, k);
      EnvelopeBlock(ts, k);
      var base, m := |AllEnvelopes(ts[..k])|, |Envelopes(ts[k])|;
      assert done[base..base + m] == lines[base..base + m];
    }
  }

  /** What was returned is carried by the lines read up to the last commit. */
  lemma {:induction false} ReturnedAreCarried(codec: Codec, lines: seq<Bytes>, returned: seq<Transaction>,
                                              pending: Option<Transaction>, bytes: nat, input: Bytes)
    requires Understood(codec, lines, returned, pending, bytes) && Join(lines) <= input
    ensures CarriedBy(codec, input, returned)
  {
    var n := |AllEnvelopes(returned)|;
    SaysPrefix(codec, lines, AllEnvelopes(returned), Partial(pending));
    FitShrinks(codec, lines, returned);
    assert Carries(codec, returned, lines[..n]);
    JoinAppends(lines[..n], lines[n..]);
    assert lines == lines[..n] + lines[n..];
  }

  /** Exhausted input that finishes is, line by line, what was returned. */
  lemma {:induction false} FinishedIsCarried(codec: Codec, lines: seq<Bytes>, returned: seq<Transaction>, bytes: nat)
    requires Understood(codec, lines, returned, None, bytes)
    ensures Carries(codec, returned, lines)
  {
    assert AllEnvelopes(returned) + Partial(None) == AllEnvelopes(returned);
  }

  /**
   A consumer that reads on past every temporary end of input, until it is exhausted or an error ends it.
   Whatever is returned is carried by the first lines of the input. It completes exactly when the whole
   input is lines that carry some transactions, and then it has returned those.
   */
  method ReadInput(codec: Codec, pieces: seq<Bytes>, ghost ts: seq<Transaction>, ghost all: seq<Bytes>)
    returns (output: seq<Transaction>, complete: bool)
    ensures CarriedBy(codec, Join(pieces), output)
    ensures complete ==> exists lines :: Carries(codec, output, lines) && Join(lines) == Join(pieces)
    ensures Carries(codec, ts, all) && Join(all) == Join(pieces) ==> output == ts && complete
  {
    var input := new Input(pieces);
    var reader := new JsonReader(codec, input);
    output, complete := [], false;
    ghost var good := Carries(codec, ts, all) && Join(all) == Join(pieces);
    assert pieces[0..] == pieces;
    if good {
      TrackStarts(codec, ts, all, input.Rest());
    }
    while input.buffer != [] || input.next < |pieces|
      invariant input.pieces == pieces && reader.input == input && reader.codec == codec
      invariant reader.Valid() && !reader.failed
      invariant fresh(reader) && fresh(input) && reader.Stream() == Join(pieces)
      invariant output == reader.returned && (good ==> reader.Follows(ts, all))
      decreases |input.Rest()| + |pieces| - input.next
    {
      ghost var lines, returned, pending, bytes := reader.lines, reader.returned, reader.pending, reader.bytes;
      ReturnedAreCarried(codec, lines, returned, pending, bytes, Join(pieces));
      var next := reader.NextTransaction(ts, all);
      if next.Err? {
        return;
      }
      if next.value.Some? {
        output := output + [next.value.value];
      }
    }
    ReturnedAreCarried(codec, reader.lines, reader.returned, reader.pending, reader.bytes, Join(pieces));
    complete := reader.Finish();
    if good {
      assert reader.line + input.Rest() == reader.line;
      AllReturned(codec, ts, all, reader.lines, reader.returned, reader.pending, reader.bytes, reader.line);
    }
    if complete {
      FinishedIsCarried(codec, reader.lines, reader.returned, reader.bytes);
      assert Join(reader.lines) == Join(pieces);
    }
  }

  // ---------------------------------------------------------------- printed input

  lemma {:induction false} AllCurrent(ts: seq<Transaction>, n: nat)
    requires n < |AllEnvelopes(ts)|
    ensures AllEnvelopes(ts)[n].format == Current
    decreases |ts|
  {
    var front := ts[..|ts| - 1];
    if n < |AllEnvelopes(front)| {
      AllCurrent(front, n);
    }
  }

  lemma {:induction false} PrintedFit(codec: Codec, ts: seq<Transaction>)
    requires Printable(codec, ts)
    ensures AllFit(codec, Lines(codec, AllEnvelopes(ts)), ts)
  {
    forall k | 0 <= k < |ts|
      ensures codec.valid(ts[k]) && BlockFits(Lines(codec, AllEnvelopes(ts)), ts, k)
    {
      assert Fits(codec, ts[k]);
      EnvelopeBlock(ts, k);
      var base := |AllEnvelopes(ts[..k])|;
      LinesSlice(codec, AllEnvelopes(ts), base, base + |Envelopes(ts[k])|);
    }
  }

  /** The printer's lines carry the printed transactions. */
  lemma {:induction false} PrintedCarries(codec: Codec, ts: seq<Transaction>)
    requires Printable(codec, ts)
    ensures Carries(codec, ts, Lines(codec, AllEnvelopes(ts)))
    ensures AllPrinted(codec, ts) == Join(Lines(codec, AllEnvelopes(ts)))
  {
    var es := AllEnvelopes(ts);
    var all := Lines(codec, es);
    PrintedIsJoined(codec, ts);
    forall i | 0 <= i < |es|
      ensures Says(codec, all[i], es[i])
    {
      EncodedIsLine(codec, es[i]);
      AllCurrent(ts, i);
    }
    PrintedFit(codec, ts);
  }

  /**
   The reader undoes the printer: whatever pieces the printed bytes arrive in, and however many temporary
   ends of input come between them, exactly the printed transactions are returned, and finishing succeeds.
   */
  method ReadBack(codec: Codec, ts: seq<Transaction>, pieces: seq<Bytes>)
    returns (output: seq<Transaction>, complete: bool)
    requires Printable(codec, ts) && Join(pieces) == AllPrinted(codec, ts)
    ensures output == ts && complete
  {
    PrintedCarries(codec, ts);
    output, complete := ReadInput(codec, pieces, ts, Lines(codec, AllEnvelopes(ts)));
  }
}
