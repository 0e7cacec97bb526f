/**
 When canonical forms forget the order in which SET members, map entries and JSON object entries were
 written: exactly when entries whose keys have the same canonical form also have the same canonical value.
 */
module Reordering {
  import opened Outcomes
  import opened Canonicalization
  import opened Sorting

  // ---------------------------------------------------------------- values that differ in order only

  ghost predicate JsonReordered(a: Json, b: Json)
    decreases a
  {
    match a
    case JsonScalar(_) => a == b
    case JsonArray(items) =>
      && b.JsonArray? && |b.items| == |items|
      && forall i :: 0 <= i < |items| ==> JsonReordered(items[i], b.items[i])
    case JsonObject(members) =>
      b.JsonObject? && exists mid :: MembersReordered(members, mid) && multiset(mid) == multiset(b.members)
  }

  ghost predicate MembersReordered(a: seq<Member>, b: seq<Member>)
    decreases a
  {
    |a| == |b| && forall i :: 0 <= i < |a| ==> a[i].key == b[i].key && JsonReordered(a[i].value, b[i].value)
  }

  /** `b` is `a` with SET members, map entries and object entries in another order, at any depth. */
  ghost predicate Reordered(a: Logical, b: Logical)
    decreases a
  {
    match a
    case Scalar(_) => a == b
    case SetValue(labels) => b.SetValue? && multiset(b.labels) == multiset(labels)
    case ArrayValue(metadata, elements) => b.ArrayValue? && b.metadata == metadata && AllReordered(elements, b.elements)
    case StructValue(fields) =>
      && b.StructValue? && |b.fields| == |fields|
      && forall i :: 0 <= i < |fields| ==>
           fields[i].name == b.fields[i].name && Reordered(fields[i].value, b.fields[i].value)
    case MapValue(entries) =>
      b.MapValue? && exists mid :: EntriesReordered(entries, mid) && multiset(mid) == multiset(b.entries)
    case RangeValue(bounds, lower, upper) =>
      b.RangeValue? && b.bounds == bounds && BoundReordered(lower, b.lower) && BoundReordered(upper, b.upper)
    case MultiRange(ranges) => b.MultiRange? && AllReordered(ranges, b.ranges)
    case Domain(value) => b.Domain? && Reordered(value, b.value)
    case JsonDocument(document) => b.JsonDocument? && JsonReordered(document, b.document)
  }

  ghost predicate AllReordered(a: seq<Logical>, b: seq<Logical>)
    decreases a
  {
    |a| == |b| && forall i :: 0 <= i < |a| ==> Reordered(a[i], b[i])
  }

  ghost predicate EntriesReordered(a: seq<Entry>, b: seq<Entry>)
    decreases a
  {
    |a| == |b| && forall i :: 0 <= i < |a| ==> EntryReordered(a[i], b[i])
  }

  ghost predicate EntryReordered(a: Entry, b: Entry)
    decreases a
  {
    Reordered(a.key, b.key) && Reordered(a.value, b.value)
  }

  ghost predicate BoundReordered(a: Bound, b: Bound)
    decreases a
  {
    if a.Unbounded? then b.Unbounded? else b.Bounded? && Reordered(a.value, b.value)
  }

  // ---------------------------------------------------------------- the condition

  ghost predicate JsonSettled(j: Json)
    decreases j
  {
    match j
    case JsonScalar(_) => true
    case JsonArray(items) => forall i :: 0 <= i < |items| ==> JsonSettled(items[i])
    case JsonObject(members) =>
      && (forall i :: 0 <= i < |members| ==> JsonSettled(members[i].value))
      && forall i, k :: 0 <= i < |members| && 0 <= k < |members| && members[i].key == members[k].key ==>
           CanonicalJson(members[i].value) == CanonicalJson(members[k].value)
  }

  /** Entries with the same canonical key have the same canonical value, at every depth. */
  ghost predicate Settled(digest: Digest, v: Logical)
    decreases v
  {
    match v
    case Scalar(_) | SetValue(_) => true
    case ArrayValue(_, elements) => forall i :: 0 <= i < |elements| ==> Settled(digest, elements[i])
    case StructValue(fields) => forall i :: 0 <= i < |fields| ==> Settled(digest, fields[i].value)
    case MapValue(entries) =>
      (forall i :: 0 <= i < |entries| ==> EntrySettled(digest, entries[i])) && NoConflict(digest, entries)
    case RangeValue(_, lower, upper) =>
      && (lower.Bounded? ==> Settled(digest, lower.value))
      && (upper.Bounded? ==> Settled(digest, upper.value))
    case MultiRange(ranges) => forall i :: 0 <= i < |ranges| ==> Settled(digest, ranges[i])
    case Domain(value) => Settled(digest, value)
    case JsonDocument(document) => JsonSettled(document)
  }

  ghost predicate EntrySettled(digest: Digest, e: Entry)
    decreases e
  {
    Settled(digest, e.key) && Settled(digest, e.value)
  }

  ghost predicate NoConflict(digest: Digest, entries: seq<Entry>) {
    var once := CanonicalEntries(digest, entries);
    forall i, k :: 0 <= i < |once| && 0 <= k < |once| && once[i].key == once[k].key ==> once[i] == once[k]
  }

  ghost predicate Injective(digest: Digest) {
    forall a, b :: digest(a) == digest(b) ==> a == b
  }

  // ---------------------------------------------------------------- settled values forget the order

  lemma {:induction false} MembersForget(a: seq<Member>, mid: seq<Member>, b: seq<Member>)
    requires CanonicalMembers(a) == CanonicalMembers(mid) && multiset(mid) == multiset(b)
    requires forall i, k :: 0 <= i < |a| && 0 <= k < |a| && a[i].key == a[k].key ==>
               CanonicalJson(a[i].value) == CanonicalJson(a[k].value)
    ensures Sort(MemberLeq, CanonicalMembers(a)) == Sort(MemberLeq, CanonicalMembers(b))
  {
    var f := (m: Member) => Member(m.key, CanonicalJson(m.value));
    MapSeqOfMultiset(f, mid, b);
    assert MapSeq(f, mid) == CanonicalMembers(mid) && MapSeq(f, b) == CanonicalMembers(b);
    MemberOrder();
    TextOrder();
    SortForgetsOrder(MemberLeq, CanonicalMembers(a), CanonicalMembers(b));
  }

  lemma {:induction false} JsonForgetsOrder(a: Json, b: Json)
    requires JsonSettled(a) && JsonReordered(a, b)
    ensures CanonicalJson(a) == CanonicalJson(b)
    decreases a
  {
    match a
    case JsonScalar(_) =>
    case JsonArray(items) =>
      forall i | 0 <= i < |items|
        ensures CanonicalJson(items[i]) == CanonicalJson(b.items[i])
      {
        JsonForgetsOrder(items[i], b.items[i]);
      }
    case JsonObject(members) =>
      var mid: seq<Member> :| MembersReordered(members, mid) && multiset(mid) == multiset(b.members);
      forall i | 0 <= i < |members|
        ensures CanonicalJson(members[i].value) == CanonicalJson(mid[i].value)
      {
        JsonForgetsOrder(members[i].value, mid[i].value);
      }
      assert CanonicalMembers(members) == CanonicalMembers(mid);
      MembersForget(members, mid, b.members);
  }

  lemma {:induction false} EntriesForget(digest: Digest, a: seq<Entry>, mid: seq<Entry>, b: seq<Entry>)
    requires CanonicalEntries(digest, a) == CanonicalEntries(digest, mid) && multiset(mid) == multiset(b)
    requires NoConflict(digest, a) && Injective(digest)
    ensures Sort(EntryLeq(digest), CanonicalEntries(digest, a)) == Sort(EntryLeq(digest), CanonicalEntries(digest, b))
  {
    var f := (e: Entry) => CanonicalEntry(digest, e);
    MapSeqOfMultiset(f, mid, b);
    assert MapSeq(f, mid) == CanonicalEntries(digest, mid) && MapSeq(f, b) == CanonicalEntries(digest, b);
    var leq, once := EntryLeq(digest), CanonicalEntries(digest, a);
    forall x, y | x in once && y in once && leq(x, y) && leq(y, x)
      ensures x == y
    {
      assert digest(x.key) == digest(y.key) && x.key == y.key;
    }
    SortForgetsOrder(leq, once, CanonicalEntries(digest, b));
  }

  lemma {:induction false} AllForget(digest: Digest, a: seq<Logical>, b: seq<Logical>)
    requires Injective(digest) && AllReordered(a, b) && forall i :: 0 <= i < |a| ==> Settled(digest, a[i])
    ensures CanonicalAll(digest, a) == CanonicalAll(digest, b)
    decreases a
  {
    forall i | 0 <= i < |a|
      ensures Canonical(digest, a[i]) == Canonical(digest, b[i])
    {
      ForgetsOrder(digest, a[i], b[i]);
    }
  }

  lemma {:induction false} EntryForgets(digest: Digest, a: Entry, b: Entry)
    requires Injective(digest) && EntryReordered(a, b) && EntrySettled(digest, a)
    ensures CanonicalEntry(digest, a) == CanonicalEntry(digest, b)
    decreases a
  {
    ForgetsOrder(digest, a.key, b.key);
    ForgetsOrder(digest, a.value, b.value);
  }

  lemma {:induction false} BoundForgets(digest: Digest, a: Bound, b: Bound)
    requires Injective(digest) && BoundReordered(a, b) && (a.Bounded? ==> Settled(digest, a.value))
    ensures CanonicalBound(digest, a) == CanonicalBound(digest, b)
    decreases a
  {
    if a.Bounded? {
      ForgetsOrder(digest, a.value, b.value);
    }
  }

  /** Settled values that differ in order only have the same canonical form. */
  lemma {:induction false} ForgetsOrder(digest: Digest, a: Logical, b: Logical)
    requires Injective(digest) && Settled(digest, a) && Reordered(a, b)
    ensures Canonical(digest, a) == Canonical(digest, b)
    decreases a
  {
    match a
    case Scalar(_) =>
    case SetValue(labels) =>
      TextOrder();
      SortForgetsOrder(TextLeq, labels, b.labels);
    case ArrayValue(_, elements) => AllForget(digest, elements, b.elements);
    case StructValue(fields) =>
      forall i | 0 <= i < |fields|
        ensures Canonical(digest, fields[i].value) == Canonical(digest, b.fields[i].value)
      {
        ForgetsOrder(digest, fields[i].value, b.fields[i].value);
      }
    case MapValue(entries) =>
      var mid: seq<Entry> :| EntriesReordered(entries, mid) && multiset(mid) == multiset(b.entries);
      forall i | 0 <= i < |entries|
        ensures CanonicalEntry(digest, entries[i]) == CanonicalEntry(digest, mid[i])
      {
        EntryForgets(digest, entries[i], mid[i]);
      }
      assert CanonicalEntries(digest, entries) == CanonicalEntries(digest, mid);
      EntriesForget(digest, entries, mid, b.entries);
    case RangeValue(_, lower, upper) =>
      BoundForgets(digest, lower, b.lower);
      BoundForgets(digest, upper, b.upper);
    case MultiRange(ranges) => AllForget(digest, ranges, b.ranges);
    case Domain(value) => ForgetsOrder(digest, value, b.value);
    case JsonDocument(document) => JsonForgetsOrder(document, b.document);
  }

  // ---------------------------------------------------------------- nothing but the order changes

  lemma {:induction false} JsonIsReordered(j: Json)
    ensures JsonReordered(j, CanonicalJson(j))
    decreases j
  {
    match j
    case JsonScalar(_) =>
    case JsonArray(items) =>
      forall i | 0 <= i < |items|
        ensures JsonReordered(items[i], CanonicalJson(items[i]))
      {
        JsonIsReordered(items[i]);
      }
    case JsonObject(members) =>
      forall i | 0 <= i < |members|
        ensures JsonReordered(members[i].value, CanonicalJson(members[i].value))
      {
        JsonIsReordered(members[i].value);
      }
      var mid := CanonicalMembers(members);
      assert MembersReordered(members, mid);
      ObjectReordered(members, mid, Sort(MemberLeq, mid));
  }

  lemma {:induction false} AllAreReordered(digest: Digest, vs: seq<Logical>)
    ensures AllReordered(vs, CanonicalAll(digest, vs))
    decreases vs
  {
    forall i | 0 <= i < |vs|
      ensures Reordered(vs[i], Canonical(digest, vs[i]))
    {
      CanonicalIsReordering(digest, vs[i]);
    }
  }

  lemma {:induction false} EntryIsReordered(digest: Digest, e: Entry)
    ensures EntryReordered(e, CanonicalEntry(digest, e))
    decreases e
  {
    CanonicalIsReordering(digest, e.key);
    CanonicalIsReordering(digest, e.value);
  }

  lemma {:induction false} BoundIsReordered(digest: Digest, bound: Bound)
    ensures BoundReordered(bound, CanonicalBound(digest, bound))
    decreases bound
  {
    if bound.Bounded? {
      CanonicalIsReordering(digest, bound.value);
    }
  }

  /** A value's canonical form is the value itself but for the order of its entries; nothing is lost or added. */
  lemma {:induction false} CanonicalIsReordering(digest: Digest, v: Logical)
    ensures Reordered(v, Canonical(digest, v))
    decreases v
  {
    match v
    case Scalar(_) =>
    case SetValue(_) =>
    case ArrayValue(_, elements) => AllAreReordered(digest, elements);
    case StructValue(fields) =>
      forall i | 0 <= i < |fields|
        ensures Reordered(fields[i].value, Canonical(digest, fields[i].value))
      {
        CanonicalIsReordering(digest, fields[i].value);
      }
    case MapValue(entries) =>
      var mid := CanonicalEntries(digest, entries);
      forall i | 0 <= i < |entries|
        ensures EntryReordered(entries[i], mid[i])
      {
        EntryIsReordered(digest, entries[i]);
      }
      assert EntriesReordered(entries, mid);
      MapReordered(entries, mid, Sort(EntryLeq(digest), mid));
    case RangeValue(_, lower, upper) =>
      BoundIsReordered(digest, lower);
      BoundIsReordered(digest, upper);
    case MultiRange(ranges) => AllAreReordered(digest, ranges);
    case Domain(value) => CanonicalIsReordering(digest, value);
    case JsonDocument(document) => JsonIsReordered(document);
  }

  // ---------------------------------------------------------------- a conflict shows

  lemma {:induction false} JsonReorderedItself(j: Json)
    ensures JsonReordered(j, j)
    decreases j
  {
    match j
    case JsonScalar(_) =>
    case JsonArray(items) =>
      forall i | 0 <= i < |items|
        ensures JsonReordered(items[i], items[i])
      {
        JsonReorderedItself(items[i]);
      }
    case JsonObject(members) =>
      forall i | 0 <= i < |members|
        ensures JsonReordered(members[i].value, members[i].value)
      {
        JsonReorderedItself(members[i].value);
      }
      assert MembersReordered(members, members);
  }

  lemma {:induction false} EntryReorderedItself(e: Entry)
    ensures EntryReordered(e, e)
    decreases e
  {
    ReorderedItself(e.key);
    ReorderedItself(e.value);
  }

  lemma {:induction false} ReorderedItself(v: Logical)
    ensures Reordered(v, v)
    decreases v
  {
    match v
    case Scalar(_) =>
    case SetValue(_) =>
    case ArrayValue(_, elements) =>
      forall i | 0 <= i < |elements|
        ensures Reordered(elements[i], elements[i])
      {
        ReorderedItself(elements[i]);
      }
    case StructValue(fields) =>
      forall i | 0 <= i < |fields|
        ensures Reordered(fields[i].value, fields[i].value)
      {
        ReorderedItself(fields[i].value);
      }
    case MapValue(entries) =>
      forall i | 0 <= i < |entries|
        ensures EntryReordered(entries[i], entries[i])
      {
        EntryReorderedItself(entries[i]);
      }
      assert EntriesReordered(entries, entries);
    case RangeValue(_, lower, upper) =>
      if lower.Bounded? {
        ReorderedItself(lower.value);
      }
      if upper.Bounded? {
        ReorderedItself(upper.value);
      }
    case MultiRange(ranges) =>
      forall i | 0 <= i < |ranges|
        ensures Reordered(ranges[i], ranges[i])
      {
        ReorderedItself(ranges[i]);
      }
    case Domain(value) => ReorderedItself(value);
    case JsonDocument(document) => JsonReorderedItself(document);
  }

  function Swap<T>(s: seq<T>, i: nat, k: nat): (r: seq<T>)
    requires i < k < |s|
    ensures |r| == |s| && multiset(r) == multiset(s)
  {
    s[i := s[k]][k := s[i]]
  }

  /** Exchanging two different elements that tie changes the sorted sequence. */
  lemma {:induction false} SwapShows<T(!new)>(leq: (T, T) -> bool, p: T -> bool, s: seq<T>, i: nat, k: nat)
    requires Ties(leq, p) && i < k < |s| && p(s[i]) && p(s[k]) && s[i] != s[k]
    ensures Sort(leq, s) != Sort(leq, Swap(s, i, k))
  {
    var swapped := Swap(s, i, k);
    SortKeepsTies(leq, p, s);
    SortKeepsTies(leq, p, swapped);
    FilterAt(p, s, i);
    FilterAt(p, swapped, i);
    assert s[..i] == swapped[..i];
  }

  /** Changing one element of a sequence changes its sorted form. */
  lemma {:induction false} ChangeShows<T(!new)>(leq: (T, T) -> bool, s: seq<T>, k: nat, x: T)
    requires k < |s| && x != s[k]
    ensures Sort(leq, s) != Sort(leq, s[k := x])
  {
    assert multiset(s[k := x]) == multiset(s)[s[k] := multiset(s)[s[k]] - 1][x := multiset(s)[x] + 1];
    assert multiset(s[k := x])[x] != multiset(s)[x];
  }

  /** A value that some reordering of `v` tells apart from `v`. */
  ghost predicate Witness(digest: Digest, v: Logical, w: Logical) {
    Reordered(v, w) && Canonical(digest, v) != Canonical(digest, w)
  }

  ghost predicate JsonWitness(j: Json, w: Json) {
    JsonReordered(j, w) && CanonicalJson(j) != CanonicalJson(w)
  }

  lemma {:induction false} MembersSwap(members: seq<Member>, i: nat, k: nat)
    requires i < k < |members| && members[i].key == members[k].key
    requires CanonicalJson(members[i].value) != CanonicalJson(members[k].value)
    ensures JsonWitness(JsonObject(members), JsonObject(Swap(members, i, k)))
  {
    var swapped := Swap(members, i, k);
    JsonReorderedItself(JsonObject(members));
    forall n | 0 <= n < |members|
      ensures JsonReordered(members[n].value, members[n].value)
    {
      JsonReorderedItself(members[n].value);
    }
    assert MembersReordered(members, members);
    var p := (m: Member) => m.key == members[i].key;
    forall a, b | p(a) && p(b)
      ensures MemberLeq(a, b)
    {
      TextIsTotal(a.key, b.key);
    }
    assert CanonicalMembers(swapped) == Swap(CanonicalMembers(members), i, k);
    SwapShows(MemberLeq, p, CanonicalMembers(members), i, k);
  }

  lemma {:induction false} ObjectReordered(members: seq<Member>, mid: seq<Member>, other: seq<Member>)
    requires MembersReordered(members, mid) && multiset(mid) == multiset(other)
    ensures JsonReordered(JsonObject(members), JsonObject(other))
  {
    assert multiset(mid) == multiset(JsonObject(other).members);
  }

  lemma {:induction false} SortedMembersDiffer(members: seq<Member>, k: nat, w: Json)
    requires k < |members| && CanonicalJson(members[k].value) != CanonicalJson(w)
    ensures Sort(MemberLeq, CanonicalMembers(members))
            != Sort(MemberLeq, CanonicalMembers(members[k := Member(members[k].key, w)]))
  {
    CanonicalChanged(members, k, w);
    ChangeShows(MemberLeq, CanonicalMembers(members), k, Member(members[k].key, CanonicalJson(w)));
  }

  lemma {:induction false} MemberChange(members: seq<Member>, k: nat, w: Json)
    requires k < |members| && JsonWitness(members[k].value, w)
    ensures JsonWitness(JsonObject(members), JsonObject(members[k := Member(members[k].key, w)]))
  {
    var changed := members[k := Member(members[k].key, w)];
    MembersChanged(members, k, w);
    ObjectReordered(members, changed, changed);
    SortedMembersDiffer(members, k, w);
  }

  lemma {:induction false} MembersChanged(members: seq<Member>, k: nat, w: Json)
    requires k < |members| && JsonReordered(members[k].value, w)
    ensures MembersReordered(members, members[k := Member(members[k].key, w)])
  {
    forall n | 0 <= n < |members|
      ensures JsonReordered(members[n].value, members[n].value)
    {
      JsonReorderedItself(members[n].value);
    }
  }

  lemma {:induction false} CanonicalChanged(members: seq<Member>, k: nat, w: Json)
    requires k < |members|
    ensures CanonicalMembers(members[k := Member(members[k].key, w)])
            == CanonicalMembers(members)[k := Member(members[k].key, CanonicalJson(w))]
  {
  }

  /** A JSON document with a conflict has a reordering with another canonical form. */
  lemma {:induction false} JsonConflictShows(j: Json)
    requires !JsonSettled(j)
    ensures exists w :: JsonWitness(j, w)
    decreases j
  {
    match j
    case JsonArray(items) =>
      var k :| 0 <= k < |items| && !JsonSettled(items[k]);
      JsonConflictShows(items[k]);
      var w :| JsonWitness(items[k], w);
      var changed := JsonArray(items[k := w]);
      JsonReorderedItself(j);
      assert CanonicalJson(j).items[k] != CanonicalJson(changed).items[k];
      assert JsonWitness(j, changed);
    case JsonObject(members) =>
      if k :| 0 <= k < |members| && !JsonSettled(members[k].value) {
        JsonConflictShows(members[k].value);
        var w :| JsonWitness(members[k].value, w);
        MemberChange(members, k, w);
      } else {
        var i, k :| 0 <= i < |members| && 0 <= k < |members| && members[i].key == members[k].key
          && CanonicalJson(members[i].value) != CanonicalJson(members[k].value);
        if i < k {
          MembersSwap(members, i, k);
        } else {
          MembersSwap(members, k, i);
        }
      }
  }

  lemma {:induction false} EntriesReorderedItself(entries: seq<Entry>)
    ensures EntriesReordered(entries, entries)
  {
    forall n | 0 <= n < |entries|
      ensures EntryReordered(entries[n], entries[n])
    {
      EntryReorderedItself(entries[n]);
    }
  }

  lemma {:induction false} EntriesSwap(digest: Digest, entries: seq<Entry>, i: nat, k: nat)
    requires i < k < |entries|
    requires CanonicalEntry(digest, entries[i]).key == CanonicalEntry(digest, entries[k]).key
    requires CanonicalEntry(digest, entries[i]) != CanonicalEntry(digest, entries[k])
    ensures Witness(digest, MapValue(entries), MapValue(Swap(entries, i, k)))
  {
    var once := CanonicalEntries(digest, entries);
    EntriesReorderedItself(entries);
    MapReordered(entries, entries, Swap(entries, i, k));
    var key := once[i].key;
    var p := (e: Entry) => e.key == key;
    assert CanonicalEntries(digest, Swap(entries, i, k)) == Swap(once, i, k);
    SwapShows(EntryLeq(digest), p, once, i, k);
  }

  lemma {:induction false} EntriesChanged(entries: seq<Entry>, k: nat, x: Entry)
    requires k < |entries| && EntryReordered(entries[k], x)
    ensures EntriesReordered(entries, entries[k := x])
  {
    EntriesReorderedItself(entries);
  }

  lemma {:induction false} EntryCanonicalChanged(digest: Digest, entries: seq<Entry>, k: nat, x: Entry)
    requires k < |entries|
    ensures CanonicalEntries(digest, entries[k := x])
            == CanonicalEntries(digest, entries)[k := CanonicalEntry(digest, x)]
  {
  }

  lemma {:induction false} SortedEntriesDiffer(digest: Digest, entries: seq<Entry>, k: nat, x: Entry)
    requires k < |entries| && CanonicalEntry(digest, entries[k]) != CanonicalEntry(digest, x)
    ensures Sort(EntryLeq(digest), CanonicalEntries(digest, entries))
            != Sort(EntryLeq(digest), CanonicalEntries(digest, entries[k := x]))
  {
    EntryCanonicalChanged(digest, entries, k, x);
    ChangeShows(EntryLeq(digest), CanonicalEntries(digest, entries), k, CanonicalEntry(digest, x));
  }

  lemma {:induction false} MapReordered(entries: seq<Entry>, mid: seq<Entry>, other: seq<Entry>)
    requires EntriesReordered(entries, mid) && multiset(mid) == multiset(other)
    ensures Reordered(MapValue(entries), MapValue(other))
  {
    assert multiset(mid) == multiset(MapValue(other).entries);
  }

  lemma {:induction false} EntryChange(digest: Digest, entries: seq<Entry>, k: nat, x: Entry)
    requires k < |entries| && EntryReordered(entries[k], x)
    requires CanonicalEntry(digest, entries[k]) != CanonicalEntry(digest, x)
    ensures Witness(digest, MapValue(entries), MapValue(entries[k := x]))
  {
    EntriesChanged(entries, k, x);
    MapReordered(entries, entries[k := x], entries[k := x]);
    SortedEntriesDiffer(digest, entries, k, x);
  }

  lemma {:induction false} EntryConflictShows(digest: Digest, e: Entry)
    requires !EntrySettled(digest, e)
    ensures exists x :: EntryReordered(e, x) && CanonicalEntry(digest, e) != CanonicalEntry(digest, x)
    decreases e
  {
    ReorderedItself(e.key);
    ReorderedItself(e.value);
    if !Settled(digest, e.key) {
      ConflictShows(digest, e.key);
      var w :| Witness(digest, e.key, w);
      assert EntryReordered(e, Entry(w, e.value));
    } else {
      ConflictShows(digest, e.value);
      var w :| Witness(digest, e.value, w);
      assert EntryReordered(e, Entry(e.key, w));
    }
  }

  lemma {:induction false} MapConflictShows(digest: Digest, entries: seq<Entry>)
    requires !Settled(digest, MapValue(entries))
    ensures exists w :: Witness(digest, MapValue(entries), w)
    decreases entries
  {
    if k :| 0 <= k < |entries| && !EntrySettled(digest, entries[k]) {
      EntryConflictShows(digest, entries[k]);
      var x :| EntryReordered(entries[k], x) && CanonicalEntry(digest, entries[k]) != CanonicalEntry(digest, x);
      EntryChange(digest, entries, k, x);
    } else {
      var once := CanonicalEntries(digest, entries);
      var i, k :| 0 <= i < |once| && 0 <= k < |once| && once[i].key == once[k].key && once[i] != once[k];
      if i < k {
        EntriesSwap(digest, entries, i, k);
      } else {
        EntriesSwap(digest, entries, k, i);
      }
    }
  }

  lemma {:induction false} AllReorderedItself(vs: seq<Logical>)
    ensures AllReordered(vs, vs)
  {
    forall i | 0 <= i < |vs|
      ensures Reordered(vs[i], vs[i])
    {
      ReorderedItself(vs[i]);
    }
  }

  lemma {:induction false} AllConflictShows(digest: Digest, vs: seq<Logical>, k: nat)
    requires k < |vs| && !Settled(digest, vs[k])
    ensures exists w :: AllReordered(vs, w) && CanonicalAll(digest, vs) != CanonicalAll(digest, w)
    decreases vs
  {
    ConflictShows(digest, vs[k]);
    var w :| Witness(digest, vs[k], w);
    AllReorderedItself(vs);
    assert CanonicalAll(digest, vs)[k] != CanonicalAll(digest, vs[k := w])[k];
    assert AllReordered(vs, vs[k := w]);
  }

  lemma {:induction false} FieldsConflictShows(digest: Digest, fields: seq<Field>, k: nat)
    requires k < |fields| && !Settled(digest, fields[k].value)
    ensures exists w :: Witness(digest, StructValue(fields), w)
    decreases fields
  {
    ConflictShows(digest, fields[k].value);
    var w :| Witness(digest, fields[k].value, w);
    var changed := fields[k := Field(fields[k].name, w)];
    forall i | 0 <= i < |fields|
      ensures Reordered(fields[i].value, fields[i].value)
    {
      ReorderedItself(fields[i].value);
    }
    assert CanonicalFields(digest, fields)[k] != CanonicalFields(digest, changed)[k];
    assert Witness(digest, StructValue(fields), StructValue(changed));
  }

  lemma {:induction false} BoundConflictShows(digest: Digest, bound: Bound)
    requires bound.Bounded? && !Settled(digest, bound.value)
    ensures exists w :: BoundReordered(bound, w) && CanonicalBound(digest, bound) != CanonicalBound(digest, w)
    decreases bound
  {
    ConflictShows(digest, bound.value);
    var w :| Witness(digest, bound.value, w);
    assert BoundReordered(bound, Bounded(w)) && CanonicalBound(digest, bound) != CanonicalBound(digest, Bounded(w));
  }

  lemma {:induction false} BoundReorderedItself(bound: Bound)
    ensures BoundReordered(bound, bound)
  {
    if bound.Bounded? {
      ReorderedItself(bound.value);
    }
  }

  lemma {:induction false} RangeConflictShows(digest: Digest, bounds: string, lower: Bound, upper: Bound)
    requires !Settled(digest, RangeValue(bounds, lower, upper))
    ensures exists w :: Witness(digest, RangeValue(bounds, lower, upper), w)
    decreases RangeValue(bounds, lower, upper), 0
  {
    BoundReorderedItself(lower);
    BoundReorderedItself(upper);
    if lower.Bounded? && !Settled(digest, lower.value) {
      BoundConflictShows(digest, lower);
      var w :| BoundReordered(lower, w) && CanonicalBound(digest, lower) != CanonicalBound(digest, w);
      assert Witness(digest, RangeValue(bounds, lower, upper), RangeValue(bounds, w, upper));
    } else {
      BoundConflictShows(digest, upper);
      var w :| BoundReordered(upper, w) && CanonicalBound(digest, upper) != CanonicalBound(digest, w);
      assert Witness(digest, RangeValue(bounds, lower, upper), RangeValue(bounds, lower, w));
    }
  }

  /** A value with a conflict has a reordering with another canonical form, for every digest. */
  lemma {:induction false} ConflictShows(digest: Digest, v: Logical)
    requires !Settled(digest, v)
    ensures exists w :: Witness(digest, v, w)
    decreases v, 1
  {
    match v
    case ArrayValue(metadata, elements) =>
      var k :| 0 <= k < |elements| && !Settled(digest, elements[k]);
      AllConflictShows(digest, elements, k);
      var w :| AllReordered(elements, w) && CanonicalAll(digest, elements) != CanonicalAll(digest, w);
      assert Witness(digest, v, ArrayValue(metadata, w));
    case StructValue(fields) =>
      var k :| 0 <= k < |fields| && !Settled(digest, fields[k].value);
      FieldsConflictShows(digest, fields, k);
    case MapValue(entries) => MapConflictShows(digest, entries);
    case RangeValue(bounds, lower, upper) => RangeConflictShows(digest, bounds, lower, upper);
    case MultiRange(ranges) =>
      var k :| 0 <= k < |ranges| && !Settled(digest, ranges[k]);
      AllConflictShows(digest, ranges, k);
      var w :| AllReordered(ranges, w) && CanonicalAll(digest, ranges) != CanonicalAll(digest, w);
      assert Witness(digest, v, MultiRange(w));
    case Domain(value) =>
      ConflictShows(digest, value);
      var w :| Witness(digest, value, w);
      assert Witness(digest, v, Domain(w));
    case JsonDocument(document) =>
      JsonConflictShows(document);
      var w :| JsonWitness(document, w);
      assert Witness(digest, v, JsonDocument(w));
  }

  // ---------------------------------------------------------------- the exact condition

  /** The canonical form forgets the order of a value's entries exactly when the value has no conflict. */
  lemma {:induction false} OrderIsForgottenIffSettled(digest: Digest, v: Logical)
    requires Injective(digest)
    ensures (forall w :: Reordered(v, w) ==> Canonical(digest, w) == Canonical(digest, v)) <==> Settled(digest, v)
  {
    if Settled(digest, v) {
      forall w | Reordered(v, w)
        ensures Canonical(digest, w) == Canonical(digest, v)
      {
        ForgetsOrder(digest, v, w);
      }
    } else {
      ConflictShows(digest, v);
      var w :| Witness(digest, v, w);
      assert Reordered(v, w);
    }
  }

  /** The digest of the canonical form. */
  function StableDigest(digest: Digest, v: Logical): nat {
    digest(Canonical(digest, v))
  }

  /** Settled values that differ in order only have one digest; values of different canonical form never do. */
  lemma {:induction false} DigestForgetsOrder(digest: Digest, a: Logical, b: Logical)
    requires Injective(digest) && Settled(digest, a)
    ensures Reordered(a, b) ==> StableDigest(digest, a) == StableDigest(digest, b)
    ensures StableDigest(digest, a) == StableDigest(digest, b) ==> Canonical(digest, a) == Canonical(digest, b)
  {
    if Reordered(a, b) {
      ForgetsOrder(digest, a, b);
    }
  }

  /** What validation checks of a map: its keys as written are distinct. */
  ghost predicate DistinctKeys(entries: seq<Entry>) {
    forall i, k :: 0 <= i < k < |entries| ==> entries[i].key != entries[k].key
  }

  lemma {:induction false} PermutedKeysConflict(digest: Digest, first: seq<string>, second: seq<string>,
                                                x: Logical, y: Logical)
    requires multiset(first) == multiset(second) && Canonical(digest, x) != Canonical(digest, y)
    ensures
      var entries := [Entry(SetValue(first), x), Entry(SetValue(second), y)];
      Witness(digest, MapValue(entries), MapValue(Swap(entries, 0, 1)))
  {
    var entries := [Entry(SetValue(first), x), Entry(SetValue(second), y)];
    TextOrder();
    SortForgetsOrder(TextLeq, first, second);
    EntriesSwap(digest, entries, 0, 1);
  }

  /**
   Distinct keys as written do not suffice: for labels a and b, the keys {a,b} and {b,a} are distinct SET
   values with one canonical form, and a map that gives them different values depends on their order.
   */
  lemma {:induction false} ValidatedMapMayConflict(digest: Digest, a: string, b: string, x: Logical, y: Logical)
    requires a != b && Canonical(digest, x) != Canonical(digest, y)
    ensures
      var entries := [Entry(SetValue([a, b]), x), Entry(SetValue([b, a]), y)];
      DistinctKeys(entries) && Witness(digest, MapValue(entries), MapValue(Swap(entries, 0, 1)))
  {
    assert [a, b][0] != [b, a][0];
    PermutedKeysConflict(digest, [a, b], [b, a], x, y);
  }
}
