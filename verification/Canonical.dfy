/**
 Canonical forms of nested values: SET members, map entries and JSON object entries are put into a fixed
 order at every depth before a value is digested.

 A digest is a number that orders map entries, as the fixed-width hexadecimal text of the source does.
 Where a result needs it, the digest is taken to be injective.
 */
module Canonicalization {
  import opened Outcomes
  import opened Sorting

  datatype Json = JsonScalar(text: string) | JsonArray(items: seq<Json>) | JsonObject(members: seq<Member>)

  datatype Member = Member(key: string, value: Json)

  /** The value kinds that nest or reorder; every other kind is a scalar here. */
  datatype Logical =
    | Scalar(text: string)
    | SetValue(labels: seq<string>)
    | ArrayValue(metadata: string, elements: seq<Logical>)
    | StructValue(fields: seq<Field>)
    | MapValue(entries: seq<Entry>)
    | RangeValue(bounds: string, lower: Bound, upper: Bound)
    | MultiRange(ranges: seq<Logical>)
    | Domain(value: Logical)
    | JsonDocument(document: Json)

  datatype Bound = Unbounded | Bounded(value: Logical)

  datatype Field = Field(name: string, value: Logical)

  datatype Entry = Entry(key: Logical, value: Logical)

  type Digest = Logical -> nat

  // ---------------------------------------------------------------- orders

  predicate MemberLeq(a: Member, b: Member) {
    TextLeq(a.key, b.key)
  }

  lemma {:induction false} MemberOrder()
    ensures TotalOrder(MemberLeq)
  {
    TextOrder();
  }

  function EntryLeq(digest: Digest): ((Entry, Entry) -> bool) {
    (a: Entry, b: Entry) => digest(a.key) <= digest(b.key)
  }

  // ---------------------------------------------------------------- canonical forms

  function CanonicalJson(j: Json): Json
    decreases j
  {
    match j
    case JsonScalar(_) => j
    case JsonArray(items) => JsonArray(seq(|items|, i requires 0 <= i < |items| => CanonicalJson(items[i])))
    case JsonObject(members) => JsonObject(Sort(MemberLeq, CanonicalMembers(members)))
  }

  function CanonicalMembers(members: seq<Member>): (r: seq<Member>)
    ensures |r| == |members|
    decreases members
  {
    seq(|members|, i requires 0 <= i < |members| => Member(members[i].key, CanonicalJson(members[i].value)))
  }

  /**
   The canonical form. The source sorts entries by the stable digest of their canonical keys, which
   canonicalizes a key once more; that changes nothing, by `CanonicalIsIdempotent`.
   */
  function Canonical(digest: Digest, v: Logical): Logical
    decreases v
  {
    match v
    case Scalar(_) => v
    case SetValue(labels) => SetValue(Sort(TextLeq, labels))
    case ArrayValue(metadata, elements) => ArrayValue(metadata, CanonicalAll(digest, elements))
    case StructValue(fields) => StructValue(CanonicalFields(digest, fields))
    case MapValue(entries) => MapValue(Sort(EntryLeq(digest), CanonicalEntries(digest, entries)))
    case RangeValue(bounds, lower, upper) =>
      RangeValue(bounds, CanonicalBound(digest, lower), CanonicalBound(digest, upper))
    case MultiRange(ranges) => MultiRange(CanonicalAll(digest, ranges))
    case Domain(value) => Domain(Canonical(digest, value))
    case JsonDocument(document) => JsonDocument(CanonicalJson(document))
  }

  function CanonicalAll(digest: Digest, vs: seq<Logical>): (r: seq<Logical>)
    ensures |r| == |vs|
    decreases vs
  {
    seq(|vs|, i requires 0 <= i < |vs| => Canonical(digest, vs[i]))
  }

  function CanonicalFields(digest: Digest, fields: seq<Field>): (r: seq<Field>)
    ensures |r| == |fields|
    decreases fields
  {
    seq(|fields|, i requires 0 <= i < |fields| => Field(fields[i].name, Canonical(digest, fields[i].value)))
  }

  function CanonicalEntries(digest: Digest, entries: seq<Entry>): (r: seq<Entry>)
    ensures |r| == |entries|
    decreases entries
  {
    seq(|entries|, i requires 0 <= i < |entries| => CanonicalEntry(digest, entries[i]))
  }

  function CanonicalEntry(digest: Digest, e: Entry): Entry
    decreases e
  {
    Entry(Canonical(digest, e.key), Canonical(digest, e.value))
  }

  function CanonicalBound(digest: Digest, bound: Bound): Bound
    decreases bound
  {
    if bound.Unbounded? then bound else Bounded(Canonical(digest, bound.value))
  }

  // ---------------------------------------------------------------- idempotence

  lemma {:induction false} JsonIsIdempotent(j: Json)
    ensures CanonicalJson(CanonicalJson(j)) == CanonicalJson(j)
    decreases j
  {
    match j
    case JsonScalar(_) =>
    case JsonArray(items) =>
      forall i | 0 <= i < |items|
        ensures CanonicalJson(CanonicalJson(items[i])) == CanonicalJson(items[i])
      {
        JsonIsIdempotent(items[i]);
      }
    case JsonObject(members) =>
      forall i | 0 <= i < |members|
        ensures CanonicalJson(CanonicalJson(members[i].value)) == CanonicalJson(members[i].value)
      {
        JsonIsIdempotent(members[i].value);
      }
      var once := CanonicalMembers(members);
      var sorted := Sort(MemberLeq, once);
      forall i | 0 <= i < |sorted|
        ensures CanonicalJson(sorted[i].value) == sorted[i].value
      {
        assert sorted[i] in multiset(once) && sorted[i] in once;
      }
      assert CanonicalMembers(sorted) == sorted;
      MemberOrder();
      SortIsSorted(MemberLeq, once);
      SortedStays(MemberLeq, sorted);
  }

  lemma {:induction false} AllAreIdempotent(digest: Digest, vs: seq<Logical>)
    ensures CanonicalAll(digest, CanonicalAll(digest, vs)) == CanonicalAll(digest, vs)
    decreases vs
  {
    forall i | 0 <= i < |vs|
      ensures Canonical(digest, Canonical(digest, vs[i])) == Canonical(digest, vs[i])
    {
      CanonicalIsIdempotent(digest, vs[i]);
    }
  }

  lemma {:induction false} EntryIsIdempotent(digest: Digest, e: Entry)
    ensures CanonicalEntry(digest, CanonicalEntry(digest, e)) == CanonicalEntry(digest, e)
    decreases e
  {
    CanonicalIsIdempotent(digest, e.key);
    CanonicalIsIdempotent(digest, e.value);
  }

  lemma {:induction false} SortedEntriesStay(digest: Digest, entries: seq<Entry>)
    ensures
      var sorted := Sort(EntryLeq(digest), CanonicalEntries(digest, entries));
      Sort(EntryLeq(digest), CanonicalEntries(digest, sorted)) == sorted
    decreases entries
  {
    var once := CanonicalEntries(digest, entries);
    var leq := EntryLeq(digest);
    var sorted := Sort(leq, once);
    forall i | 0 <= i < |entries|
      ensures CanonicalEntry(digest, once[i]) == once[i]
    {
      EntryIsIdempotent(digest, entries[i]);
    }
    forall i | 0 <= i < |sorted|
      ensures CanonicalEntry(digest, sorted[i]) == sorted[i]
    {
      assert sorted[i] in multiset(once) && sorted[i] in once;
    }
    assert CanonicalEntries(digest, sorted) == sorted;
    SortIsSorted(leq, once);
    SortedStays(leq, sorted);
  }

  /** Canonicalizing twice is canonicalizing once, for every digest. */
  lemma {:induction false} CanonicalIsIdempotent(digest: Digest, v: Logical)
    ensures Canonical(digest, Canonical(digest, v)) == Canonical(digest, v)
    decreases v
  {
    match v
    case Scalar(_) =>
    case SetValue(labels) =>
      TextOrder();
      SortIsSorted(TextLeq, labels);
      SortedStays(TextLeq, Sort(TextLeq, labels));
    case ArrayValue(_, elements) => AllAreIdempotent(digest, elements);
    case StructValue(fields) =>
      forall i | 0 <= i < |fields|
        ensures Canonical(digest, Canonical(digest, fields[i].value)) == Canonical(digest, fields[i].value)
      {
        CanonicalIsIdempotent(digest, fields[i].value);
      }
    case MapValue(entries) => SortedEntriesStay(digest, entries);
    case RangeValue(_, lower, upper) =>
      if lower.Bounded? {
        CanonicalIsIdempotent(digest, lower.value);
      }
      if upper.Bounded? {
        CanonicalIsIdempotent(digest, upper.value);
      }
    case MultiRange(ranges) => AllAreIdempotent(digest, ranges);
    case Domain(value) => CanonicalIsIdempotent(digest, value);
    case JsonDocument(document) => JsonIsIdempotent(document);
  }

  // ---------------------------------------------------------------- the order of a canonical form

  /** Object members ascend by key, at every depth. */
  ghost predicate OrderedJson(j: Json)
    decreases j
  {
    match j
    case JsonScalar(_) => true
    case JsonArray(items) => forall i :: 0 <= i < |items| ==> OrderedJson(items[i])
    case JsonObject(members) =>
      && (forall i, k :: 0 <= i < k < |members| ==> TextLeq(members[i].key, members[k].key))
      && forall i :: 0 <= i < |members| ==> OrderedJson(members[i].value)
  }

  /** SET labels ascend, map entries ascend by the digest of their keys, at every depth. */
  ghost predicate Ordered(digest: Digest, v: Logical)
    decreases v
  {
    match v
    case Scalar(_) => true
    case SetValue(labels) => forall i, k :: 0 <= i < k < |labels| ==> TextLeq(labels[i], labels[k])
    case ArrayValue(_, elements) => forall i :: 0 <= i < |elements| ==> Ordered(digest, elements[i])
    case StructValue(fields) => forall i :: 0 <= i < |fields| ==> Ordered(digest, fields[i].value)
    case MapValue(entries) =>
      && (forall i, k :: 0 <= i < k < |entries| ==> digest(entries[i].key) <= digest(entries[k].key))
      && forall i :: 0 <= i < |entries| ==> Ordered(digest, entries[i].key) && Ordered(digest, entries[i].value)
    case RangeValue(_, lower, upper) =>
      (lower.Bounded? ==> Ordered(digest, lower.value)) && (upper.Bounded? ==> Ordered(digest, upper.value))
    case MultiRange(ranges) => forall i :: 0 <= i < |ranges| ==> Ordered(digest, ranges[i])
    case Domain(value) => Ordered(digest, value)
    case JsonDocument(document) => OrderedJson(document)
  }

  lemma {:induction false} CanonicalJsonIsOrdered(j: Json)
    ensures OrderedJson(CanonicalJson(j))
    decreases j
  {
    match j
    case JsonScalar(_) =>
    case JsonArray(items) =>
      forall i | 0 <= i < |items|
        ensures OrderedJson(CanonicalJson(items[i]))
      {
        CanonicalJsonIsOrdered(items[i]);
      }
    case JsonObject(members) =>
      var once := CanonicalMembers(members);
      var sorted := Sort(MemberLeq, once);
      forall i | 0 <= i < |members|
        ensures OrderedJson(once[i].value)
      {
        CanonicalJsonIsOrdered(members[i].value);
      }
      MemberOrder();
      SortIsSorted(MemberLeq, once);
      forall i | 0 <= i < |sorted|
        ensures OrderedJson(sorted[i].value)
      {
        assert sorted[i] in multiset(once) && sorted[i] in once;
      }
  }

  lemma {:induction false} EntryIsOrdered(digest: Digest, e: Entry)
    ensures Ordered(digest, CanonicalEntry(digest, e).key) && Ordered(digest, CanonicalEntry(digest, e).value)
    decreases e
  {
    CanonicalIsOrdered(digest, e.key);
    CanonicalIsOrdered(digest, e.value);
  }

  lemma {:induction false} EntriesAreOrdered(digest: Digest, entries: seq<Entry>)
    ensures Ordered(digest, MapValue(Sort(EntryLeq(digest), CanonicalEntries(digest, entries))))
    decreases entries
  {
    var once := CanonicalEntries(digest, entries);
    var sorted := Sort(EntryLeq(digest), once);
    forall i | 0 <= i < |entries|
      ensures Ordered(digest, once[i].key) && Ordered(digest, once[i].value)
    {
      EntryIsOrdered(digest, entries[i]);
    }
    SortIsSorted(EntryLeq(digest), once);
    forall i | 0 <= i < |sorted|
      ensures Ordered(digest, sorted[i].key) && Ordered(digest, sorted[i].value)
    {
      assert sorted[i] in multiset(once) && sorted[i] in once;
    }
  }

  lemma {:induction false} AllAreOrdered(digest: Digest, vs: seq<Logical>)
    ensures forall i :: 0 <= i < |vs| ==> Ordered(digest, CanonicalAll(digest, vs)[i])
    decreases vs
  {
    forall i | 0 <= i < |vs|
      ensures Ordered(digest, Canonical(digest, vs[i]))
    {
      CanonicalIsOrdered(digest, vs[i]);
    }
  }

  /** A canonical form is in order at every depth. */
  lemma {:induction false} CanonicalIsOrdered(digest: Digest, v: Logical)
    ensures Ordered(digest, Canonical(digest, v))
    decreases v
  {
    match v
    case Scalar(_) =>
    case SetValue(labels) =>
      TextOrder();
      SortIsSorted(TextLeq, labels);
    case ArrayValue(_, elements) => AllAreOrdered(digest, elements);
    case StructValue(fields) =>
      forall i | 0 <= i < |fields|
        ensures Ordered(digest, Canonical(digest, fields[i].value))
      {
        CanonicalIsOrdered(digest, fields[i].value);
      }
    case MapValue(entries) => EntriesAreOrdered(digest, entries);
    case RangeValue(_, lower, upper) =>
      if lower.Bounded? {
        CanonicalIsOrdered(digest, lower.value);
      }
      if upper.Bounded? {
        CanonicalIsOrdered(digest, upper.value);
      }
    case MultiRange(ranges) => AllAreOrdered(digest, ranges);
    case Domain(value) => CanonicalIsOrdered(digest, value);
    case JsonDocument(document) => CanonicalJsonIsOrdered(document);
  }

  // ---------------------------------------------------------------- the rewriting loops

  /** The source rewrites children in loops and then sorts. */
  method RewriteJson(j: Json) returns (r: Json)
    ensures r == CanonicalJson(j)
    decreases j
  {
    match j {
      case JsonScalar(_) => return j;
      case JsonArray(items) =>
        var rewritten := [];
        for n := 0 to |items|
          invariant |rewritten| == n && forall i :: 0 <= i < n ==> rewritten[i] == CanonicalJson(items[i])
        {
          var item := RewriteJson(items[n]);
          rewritten := rewritten + [item];
        }
        return JsonArray(rewritten);
      case JsonObject(members) =>
        var rewritten := [];
        for n := 0 to |members|
          invariant |rewritten| == n
          invariant forall i :: 0 <= i < n ==> rewritten[i] == Member(members[i].key, CanonicalJson(members[i].value))
        {
          var value := RewriteJson(members[n].value);
          rewritten := rewritten + [Member(members[n].key, value)];
        }
        assert rewritten == CanonicalMembers(members);
        return JsonObject(Sort(MemberLeq, rewritten));
    }
  }

  method RewriteAll(digest: Digest, vs: seq<Logical>) returns (r: seq<Logical>)
    ensures r == CanonicalAll(digest, vs)
    decreases vs
  {
    r := [];
    for n := 0 to |vs|
      invariant |r| == n && forall i :: 0 <= i < n ==> r[i] == Canonical(digest, vs[i])
    {
      var v := Rewrite(digest, vs[n]);
      r := r + [v];
    }
  }

  method RewriteEntry(digest: Digest, e: Entry) returns (r: Entry)
    ensures r == CanonicalEntry(digest, e)
    decreases e
  {
    var key := Rewrite(digest, e.key);
    var value := Rewrite(digest, e.value);
    return Entry(key, value);
  }

  method RewriteBound(digest: Digest, bound: Bound) returns (r: Bound)
    ensures r == CanonicalBound(digest, bound)
    decreases bound
  {
    if bound.Unbounded? {
      return bound;
    }
    var value := Rewrite(digest, bound.value);
    return Bounded(value);
  }

  method Rewrite(digest: Digest, v: Logical) returns (r: Logical)
    ensures r == Canonical(digest, v)
    decreases v
  {
    match v {
      case Scalar(_) => return v;
      case SetValue(labels) => return SetValue(Sort(TextLeq, labels));
      case ArrayValue(metadata, elements) =>
        var rewritten := RewriteAll(digest, elements);
        return ArrayValue(metadata, rewritten);
      case StructValue(fields) =>
        var rewritten := [];
        for n := 0 to |fields|
          invariant |rewritten| == n
          invariant forall i :: 0 <= i < n ==> rewritten[i] == Field(fields[i].name, Canonical(digest, fields[i].value))
        {
          var value := Rewrite(digest, fields[n].value);
          rewritten := rewritten + [Field(fields[n].name, value)];
        }
        assert rewritten == CanonicalFields(digest, fields);
        return StructValue(rewritten);
      case MapValue(entries) =>
        var rewritten := [];
        for n := 0 to |entries|
          invariant |rewritten| == n && forall i :: 0 <= i < n ==> rewritten[i] == CanonicalEntry(digest, entries[i])
        {
          var entry := RewriteEntry(digest, entries[n]);
          rewritten := rewritten + [entry];
        }
        assert rewritten == CanonicalEntries(digest, entries);
        return MapValue(Sort(EntryLeq(digest), rewritten));
      case RangeValue(bounds, lower, upper) =>
        var low := RewriteBound(digest, lower);
        var high := RewriteBound(digest, upper);
        return RangeValue(bounds, low, high);
      case MultiRange(ranges) =>
        var rewritten := RewriteAll(digest, ranges);
        return MultiRange(rewritten);
      case Domain(value) =>
        var inner := Rewrite(digest, value);
        return Domain(inner);
      case JsonDocument(document) =>
        var inner := RewriteJson(document);
        return JsonDocument(inner);
    }
  }
}
