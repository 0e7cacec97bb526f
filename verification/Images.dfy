/** Row images and their validation: the contract every row change meets before it is planned. */
module Images {
  import opened Outcomes

  type Name = string

  /** A column value; which logical values a target can bind is not modelled. */
  type Scalar = string

  datatype Datum = Unavailable | Unchanged | Null | Value(value: Scalar) | Envelope(payload: Scalar)

  datatype Column = Column(
    ordinal: nat, name: Name, nativeType: string, key: Option<nat>, generated: bool,
    collation: Option<string>, datum: Datum)

  type Image = seq<Column>

  datatype Operation = Insert | Update | Delete

  datatype TableId = TableId(schema: Name, table: Name)

  datatype RowChange = RowChange(operation: Operation, table: TableId, before: Option<Image>, after: Option<Image>)

  // ---------------------------------------------------------------- validated images

  predicate GoodIdentifier(name: Name) {
    name != "" && '\0' !in name
  }

  predicate ValidPresence(datum: Datum, operation: Operation, isBefore: bool) {
    && (datum.Unavailable? ==> isBefore && operation != Insert)
    && (datum.Unchanged? ==> !isBefore && operation == Update)
  }

  predicate ValidColumn(c: Column, operation: Operation, isBefore: bool) {
    && GoodIdentifier(c.name) && c.nativeType != ""
    && (c.key.Some? ==> c.datum.Value? && !c.generated)
    && ValidPresence(c.datum, operation, isBefore)
  }

  predicate DistinctColumns(row: Image) {
    forall i, j :: 0 <= i < j < |row| ==>
      && row[i].name != row[j].name && row[i].ordinal != row[j].ordinal
      && (row[i].key.Some? ==> row[i].key != row[j].key)
  }

  predicate KeyAt(row: Image, ordinal: nat) {
    exists i :: 0 <= i < |row| && row[i].key == Some(ordinal)
  }

  /** Key ordinals start at zero without a gap. */
  predicate ContiguousKey(row: Image) {
    forall i, m: nat :: 0 <= i < |row| && row[i].key.Some? && m < row[i].key.value ==> KeyAt(row, m)
  }

  /** What `image` accepts; the checks of the values themselves are not modelled. */
  predicate ValidImage(row: Image, operation: Operation, isBefore: bool) {
    && |row| > 0
    && (forall i :: 0 <= i < |row| ==> ValidColumn(row[i], operation, isBefore))
    && DistinctColumns(row)
    && ContiguousKey(row)
  }

  function Below(n: nat): (s: set<nat>)
    ensures |s| == n && forall i: nat :: i in s <==> i < n
  {
    if n == 0 then {} else Below(n - 1) + {n - 1}
  }

  lemma {:induction false} SubsetSize(a: set<nat>, b: set<nat>)
    requires a <= b
    ensures |a| <= |b| && (|a| == |b| ==> a == b)
    decreases |a|
  {
    if x :| x in a {
      SubsetSize(a - {x}, b - {x});
      assert a == a - {x} + {x} && b == b - {x} + {x};
    } else {
      assert a == {};
    }
  }

  ghost predicate ClosedBelow(k: set<nat>) {
    forall x: nat, m: nat :: x in k && m < x ==> m in k
  }

  /** A finite set of naturals holds everything below its size exactly when it is closed downwards. */
  lemma {:induction false} ContiguousSet(k: set<nat>)
    ensures Below(|k|) <= k <==> ClosedBelow(k)
  {
    if Below(|k|) <= k {
      SubsetSize(Below(|k|), k);
    } else if ClosedBelow(k) {
      var i :| i in Below(|k|) && i !in k;
      assert k <= Below(i);
      SubsetSize(k, Below(i));
    }
  }

  /** A column that may follow the columns before it. */
  predicate Fits(row: Image, c: Column) {
    forall i :: 0 <= i < |row| ==>
      row[i].name != c.name && row[i].ordinal != c.ordinal && (row[i].key.Some? ==> row[i].key != c.key)
  }

  predicate NameIn(row: Image, name: Name) {
    exists i :: 0 <= i < |row| && row[i].name == name
  }

  predicate OrdinalIn(row: Image, ordinal: nat) {
    exists i :: 0 <= i < |row| && row[i].ordinal == ordinal
  }

  lemma {:induction false} ExtendImage(row: Image, c: Column)
    ensures DistinctColumns(row + [c]) <==> DistinctColumns(row) && Fits(row, c)
  {
    var longer := row + [c];
    assert longer[|row|] == c && forall i :: 0 <= i < |row| ==> longer[i] == row[i];
  }

  lemma {:induction false} ExtendOccurrences(row: Image, c: Column, name: Name, n: nat)
    ensures NameIn(row + [c], name) <==> NameIn(row, name) || c.name == name
    ensures OrdinalIn(row + [c], n) <==> OrdinalIn(row, n) || c.ordinal == n
    ensures KeyAt(row + [c], n) <==> KeyAt(row, n) || c.key == Some(n)
  {
    var longer := row + [c];
    assert longer[|row|] == c && forall i :: 0 <= i < |row| ==> longer[i] == row[i];
  }

  /** The loop's three sets after a prefix of the columns. */
  ghost predicate Tracks(row: Image, names: set<Name>, ordinals: set<nat>, keyOrdinals: set<nat>) {
    && (forall x :: x in names <==> NameIn(row, x))
    && (forall n: nat :: n in ordinals <==> OrdinalIn(row, n))
    && (forall n: nat :: n in keyOrdinals <==> KeyAt(row, n))
  }

  lemma {:induction false} FitsWhenNew(row: Image, c: Column)
    ensures Fits(row, c) <==>
            !NameIn(row, c.name) && !OrdinalIn(row, c.ordinal) && (c.key.Some? ==> !KeyAt(row, c.key.value))
  {
  }

  lemma {:induction false} TrackColumn(row: Image, c: Column, names: set<Name>, ordinals: set<nat>,
                                       keyOrdinals: set<nat>)
    requires Tracks(row, names, ordinals, keyOrdinals)
    ensures Tracks(row + [c], names + {c.name}, ordinals + {c.ordinal},
                   keyOrdinals + if c.key.Some? then {c.key.value} else {})
  {
    forall x
      ensures NameIn(row + [c], x) <==> NameIn(row, x) || c.name == x
    {
      ExtendOccurrences(row, c, x, 0);
    }
    forall n: nat
      ensures OrdinalIn(row + [c], n) <==> OrdinalIn(row, n) || c.ordinal == n
      ensures KeyAt(row + [c], n) <==> KeyAt(row, n) || c.key == Some(n)
    {
      ExtendOccurrences(row, c, "", n);
    }
  }

  predicate IsNew(c: Column, names: set<Name>, ordinals: set<nat>, keyOrdinals: set<nat>) {
    c.name !in names && c.ordinal !in ordinals && (c.key.Some? ==> c.key.value !in keyOrdinals)
  }

  /** The body of the source's loop: one column against the sets of the columns before it. */
  method CheckColumn(c: Column, operation: Operation, isBefore: bool,
                     names: set<Name>, ordinals: set<nat>, keyOrdinals: set<nat>)
    returns (ok: bool, newNames: set<Name>, newOrdinals: set<nat>, newKeys: set<nat>)
    ensures ok <==> ValidColumn(c, operation, isBefore) && IsNew(c, names, ordinals, keyOrdinals)
    ensures ok ==> newNames == names + {c.name} && newOrdinals == ordinals + {c.ordinal}
    ensures ok ==> newKeys == keyOrdinals + if c.key.Some? then {c.key.value} else {}
  {
    ok, newNames, newOrdinals, newKeys := false, names + {c.name}, ordinals + {c.ordinal}, keyOrdinals;
    if c.name == "" || '\0' in c.name || c.nativeType == "" {
      return;
    }
    if c.name in names || c.ordinal in ordinals {
      return;
    }
    if c.key.Some? {
      if c.key.value in keyOrdinals {
        return;
      }
      newKeys := keyOrdinals + {c.key.value};
      if !c.datum.Value? || c.generated {
        return;
      }
    }
    match c.datum {
      case Unavailable => ok := isBefore && operation != Insert;
      case Unchanged => ok := !isBefore && operation == Update;
      case _ => ok := true;
    }
  }

  lemma {:induction false} FirstBadColumn(row: Image, n: nat, operation: Operation, isBefore: bool)
    requires n < |row|
    requires !ValidColumn(row[n], operation, isBefore) || !Fits(row[..n], row[n])
    ensures !ValidImage(row, operation, isBefore)
  {
    if i :| 0 <= i < n && (row[i].name == row[n].name || row[i].ordinal == row[n].ordinal
                           || (row[i].key.Some? && row[i].key == row[n].key)) {
      assert !DistinctColumns(row);
    }
  }

  lemma {:induction false} NextColumn(row: Image, n: nat, names: set<Name>, ordinals: set<nat>, keyOrdinals: set<nat>)
    requires n < |row| && Tracks(row[..n], names, ordinals, keyOrdinals) && DistinctColumns(row[..n])
    ensures Fits(row[..n], row[n]) <==> IsNew(row[n], names, ordinals, keyOrdinals)
    ensures IsNew(row[n], names, ordinals, keyOrdinals) ==> DistinctColumns(row[..n + 1])
    ensures Tracks(row[..n + 1], names + {row[n].name}, ordinals + {row[n].ordinal},
                   keyOrdinals + if row[n].key.Some? then {row[n].key.value} else {})
  {
    assert row[..n + 1] == row[..n] + [row[n]];
    ExtendImage(row[..n], row[n]);
    FitsWhenNew(row[..n], row[n]);
    TrackColumn(row[..n], row[n], names, ordinals, keyOrdinals);
  }

  lemma {:induction false} KeyOrdinalsClosed(row: Image, keyOrdinals: set<nat>)
    requires forall k: nat :: k in keyOrdinals <==> KeyAt(row, k)
    ensures ContiguousKey(row) <==> ClosedBelow(keyOrdinals)
  {
    if ClosedBelow(keyOrdinals) {
      forall i, m: nat | 0 <= i < |row| && row[i].key.Some? && m < row[i].key.value
        ensures KeyAt(row, m)
      {
        assert KeyAt(row, row[i].key.value);
      }
    }
  }

  lemma {:induction false} ContiguityTest(row: Image, keyOrdinals: set<nat>)
    requires forall k: nat :: k in keyOrdinals <==> KeyAt(row, k)
    ensures (forall k :: 0 <= k < |keyOrdinals| ==> k in keyOrdinals) <==> ContiguousKey(row)
  {
    ContiguousSet(keyOrdinals);
    KeyOrdinalsClosed(row, keyOrdinals);
    assert (forall k :: 0 <= k < |keyOrdinals| ==> k in keyOrdinals) <==> Below(|keyOrdinals|) <= keyOrdinals;
  }

  /** The source's loop over the columns of an image, with its three sets. */
  method CheckImage(row: Image, operation: Operation, isBefore: bool) returns (ok: bool)
    ensures ok <==> ValidImage(row, operation, isBefore)
  {
    if |row| == 0 {
      return false;
    }
    var names: set<Name>, ordinals: set<nat>, keyOrdinals: set<nat> := {}, {}, {};
    for n := 0 to |row|
      invariant forall i :: 0 <= i < n ==> ValidColumn(row[i], operation, isBefore)
      invariant Tracks(row[..n], names, ordinals, keyOrdinals)
      invariant DistinctColumns(row[..n])
    {
      NextColumn(row, n, names, ordinals, keyOrdinals);
      ok, names, ordinals, keyOrdinals := CheckColumn(row[n], operation, isBefore, names, ordinals, keyOrdinals);
      if !ok {
        FirstBadColumn(row, n, operation, isBefore);
        return;
      }
    }
    assert row[..|row|] == row;
    ContiguityTest(row, keyOrdinals);
    ok := forall k :: 0 <= k < |keyOrdinals| ==> k in keyOrdinals;
  }

  /** The definitions that an UPDATE's two images share. */
  predicate SameDefinition(b: Column, a: Column) {
    && b.ordinal == a.ordinal && b.name == a.name && b.nativeType == a.nativeType && b.key == a.key
    && b.generated == a.generated && b.collation == a.collation
  }

  /** The row checks of `validate` on one change. */
  predicate ValidChange(c: RowChange) {
    && GoodIdentifier(c.table.schema) && GoodIdentifier(c.table.table)
    && (match c.operation
        case Insert => c.before.None? && c.after.Some?
        case Update => c.before.Some? && c.after.Some?
        case Delete => c.before.Some? && c.after.None?)
    && (c.before.Some? ==> ValidImage(c.before.value, c.operation, true))
    && (c.after.Some? ==> ValidImage(c.after.value, c.operation, false))
    && (c.before.Some? && c.after.Some? ==>
          && |c.before.value| == |c.after.value|
          && forall i :: 0 <= i < |c.before.value| ==> SameDefinition(c.before.value[i], c.after.value[i]))
  }
}
