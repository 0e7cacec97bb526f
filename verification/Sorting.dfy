/** The standard library's stable sort, and the byte order of text. */
module Sorting {
  // ---------------------------------------------------------------- stable sorting

  predicate Sorted<T>(leq: (T, T) -> bool, s: seq<T>) {
    forall i, j :: 0 <= i < j < |s| ==> leq(s[i], s[j])
  }

  ghost predicate TotalOrder<T(!new)>(leq: (T, T) -> bool) {
    && (forall a, b :: leq(a, b) || leq(b, a))
    && (forall a, b, c :: leq(a, b) && leq(b, c) ==> leq(a, c))
  }

  function Insert<T>(leq: (T, T) -> bool, x: T, s: seq<T>): (r: seq<T>)
    ensures multiset(r) == multiset{x} + multiset(s)
  {
    if s == [] || leq(x, s[0]) then [x] + s
    else
      assert s == [s[0]] + s[1..];
      [s[0]] + Insert(leq, x, s[1..])
  }

  /** The library's stable sort: elements that are equal in the order keep their places. */
  function Sort<T>(leq: (T, T) -> bool, s: seq<T>): (r: seq<T>)
    ensures multiset(r) == multiset(s)
  {
    if s == [] then []
    else
      assert s == [s[0]] + s[1..];
      Insert(leq, s[0], Sort(leq, s[1..]))
  }

  lemma {:induction false} InsertIsSorted<T(!new)>(leq: (T, T) -> bool, x: T, s: seq<T>)
    requires TotalOrder(leq) && Sorted(leq, s)
    ensures Sorted(leq, Insert(leq, x, s))
    decreases |s|
  {
    if s != [] {
      if leq(x, s[0]) {
        assert forall j :: 0 <= j < |s| ==> leq(x, s[j]);
      } else {
        InsertIsSorted(leq, x, s[1..]);
        var r := Insert(leq, x, s[1..]);
        forall j | 0 <= j < |r|
          ensures leq(s[0], r[j])
        {
          assert r[j] in multiset(r);
          assert r[j] == x || r[j] in s[1..];
        }
      }
    }
  }

  lemma {:induction false} SortIsSorted<T(!new)>(leq: (T, T) -> bool, s: seq<T>)
    requires TotalOrder(leq)
    ensures Sorted(leq, Sort(leq, s))
    decreases |s|
  {
    if s != [] {
      SortIsSorted(leq, s[1..]);
      InsertIsSorted(leq, s[0], Sort(leq, s[1..]));
    }
  }

  lemma {:induction false} SortedStays<T>(leq: (T, T) -> bool, s: seq<T>)
    requires Sorted(leq, s)
    ensures Sort(leq, s) == s
    decreases |s|
  {
    if s != [] {
      SortedStays(leq, s[1..]);
      assert s == [s[0]] + s[1..];
      assert |s| > 1 ==> leq(s[0], s[1]);
    }
  }

  /** Ties are between equal elements only. */
  ghost predicate NoTies<T(!new)>(leq: (T, T) -> bool, s: seq<T>) {
    forall a, b :: a in s && b in s && leq(a, b) && leq(b, a) ==> a == b
  }

  lemma {:induction false} SortedIsUnique<T(!new)>(leq: (T, T) -> bool, a: seq<T>, b: seq<T>)
    requires Sorted(leq, a) && Sorted(leq, b) && multiset(a) == multiset(b) && NoTies(leq, a)
    requires forall x :: leq(x, x)
    ensures a == b
    decreases |a|
  {
    assert |a| == |multiset(a)| == |multiset(b)| == |b|;
    if a != [] {
      assert a[0] == b[0] by {
        assert a[0] in multiset(b) && b[0] in multiset(a);
        LeastFirst(leq, a, b[0]);
        LeastFirst(leq, b, a[0]);
      }
      HeadOff(a);
      HeadOff(b);
      assert multiset(a[1..]) == multiset(b[1..]);
      SortedIsUnique(leq, a[1..], b[1..]);
    }
  }

  lemma {:induction false} LeastFirst<T(!new)>(leq: (T, T) -> bool, s: seq<T>, x: T)
    requires Sorted(leq, s) && x in s && forall y :: leq(y, y)
    ensures leq(s[0], x)
  {
  }

  lemma {:induction false} HeadOff<T>(s: seq<T>)
    requires s != []
    ensures s == [s[0]] + s[1..] && multiset(s[1..]) == multiset(s) - multiset{s[0]}
    ensures forall x :: x in s[1..] ==> x in s
  {
    var joined := [s[0]] + s[1..];
    assert |joined| == |s| && joined[0] == s[0] && forall i :: 0 < i < |s| ==> joined[i] == s[i];
    assert joined == s;
  }

  /** The order of the input does not matter when ties are between equal elements only. */
  lemma {:induction false} SortForgetsOrder<T(!new)>(leq: (T, T) -> bool, a: seq<T>, b: seq<T>)
    requires TotalOrder(leq) && multiset(a) == multiset(b) && NoTies(leq, a)
    ensures Sort(leq, a) == Sort(leq, b)
  {
    SortIsSorted(leq, a);
    SortIsSorted(leq, b);
    var r := Sort(leq, a);
    forall x | x in r
      ensures x in a
    {
      assert x in multiset(r);
      assert x in multiset(a);
    }
    SortedIsUnique(leq, r, Sort(leq, b));
  }

  // ---------------------------------------------------------------- text order

  predicate TextLeq(a: string, b: string) {
    a == [] || (b != [] && (a[0] < b[0] || (a[0] == b[0] && TextLeq(a[1..], b[1..]))))
  }

  lemma {:induction false} TextIsTotal(a: string, b: string)
    ensures TextLeq(a, b) || TextLeq(b, a)
    ensures TextLeq(a, b) && TextLeq(b, a) ==> a == b
    decreases |a|
  {
    if a != [] && b != [] && a[0] == b[0] {
      TextIsTotal(a[1..], b[1..]);
      HeadOff(a);
      HeadOff(b);
    }
  }

  lemma {:induction false} TextIsTransitive(a: string, b: string, c: string)
    requires TextLeq(a, b) && TextLeq(b, c)
    ensures TextLeq(a, c)
    decreases |a|
  {
    if a != [] && a[0] == b[0] == c[0] {
      TextIsTransitive(a[1..], b[1..], c[1..]);
    }
  }

  /** The order is that of the first difference; a text comes before what it is a prefix of. */
  lemma {:induction false} TextOrderMeaning(a: string, b: string)
    ensures TextLeq(a, b) <==>
            || a <= b
            || exists i :: 0 <= i < |a| && i < |b| && a[..i] == b[..i] && a[i] < b[i]
    decreases |a|
  {
    if a != [] && b != [] && a[0] == b[0] {
      TextOrderMeaning(a[1..], b[1..]);
      assert a <= b <==> a[1..] <= b[1..];
      forall i | 0 < i < |a| && i < |b|
        ensures a[..i] == b[..i] <==> a[1..][..i - 1] == b[1..][..i - 1]
      {
        assert a[..i] == [a[0]] + a[1..][..i - 1] && b[..i] == [b[0]] + b[1..][..i - 1];
      }
      if i :| 0 <= i < |a[1..]| && i < |b[1..]| && a[1..][..i] == b[1..][..i] && a[1..][i] < b[1..][i] {
        assert a[..i + 1] == b[..i + 1] && a[i + 1] < b[i + 1];
      }
      if i :| 0 <= i < |a| && i < |b| && a[..i] == b[..i] && a[i] < b[i] {
        assert a[1..][..i - 1] == b[1..][..i - 1] && a[1..][i - 1] < b[1..][i - 1];
      }
    } else if a != [] && b != [] && a[0] < b[0] {
      assert a[..0] == b[..0];
    }
  }

  lemma {:induction false} TextOrder()
    ensures TotalOrder(TextLeq)
    ensures forall a, b :: TextLeq(a, b) && TextLeq(b, a) ==> a == b
  {
    forall a, b
      ensures TextLeq(a, b) || TextLeq(b, a)
      ensures TextLeq(a, b) && TextLeq(b, a) ==> a == b
    {
      TextIsTotal(a, b);
    }
    forall a, b, c | TextLeq(a, b) && TextLeq(b, c)
      ensures TextLeq(a, c)
    {
      TextIsTransitive(a, b, c);
    }
  }

  // ---------------------------------------------------------------- images of permutations

  function MapSeq<A, B>(f: A -> B, s: seq<A>): (r: seq<B>)
    ensures |r| == |s|
  {
    seq(|s|, i requires 0 <= i < |s| => f(s[i]))
  }

  lemma {:induction false} MapSeqOfMultiset<A, B>(f: A -> B, a: seq<A>, b: seq<A>)
    requires multiset(a) == multiset(b)
    ensures multiset(MapSeq(f, a)) == multiset(MapSeq(f, b))
    decreases |a|
  {
    if a == [] {
      assert |b| == |multiset(b)| == 0;
    } else {
      assert a[0] in multiset(b);
      var k :| 0 <= k < |b| && b[k] == a[0];
      var rest := b[..k] + b[k + 1..];
      SameRest(a, b, k);
      MapSeqOfMultiset(f, a[1..], rest);
      MapSeqWithout(f, b, k);
      MapSeqWithout(f, a, 0);
      assert a[..0] + a[1..] == a[1..];
    }
  }

  lemma {:induction false} SameRest<A>(a: seq<A>, b: seq<A>, k: nat)
    requires multiset(a) == multiset(b) && a != [] && k < |b| && b[k] == a[0]
    ensures multiset(a[1..]) == multiset(b[..k] + b[k + 1..])
  {
    Without(b, k);
    Without(a, 0);
    assert a[..0] + a[1..] == a[1..];
    assert multiset(a[1..]) == multiset(a) - multiset{a[0]};
    assert multiset(b[..k] + b[k + 1..]) == multiset(b) - multiset{b[k]};
  }

  lemma {:induction false} Without<A>(s: seq<A>, k: nat)
    requires k < |s|
    ensures multiset(s) == multiset{s[k]} + multiset(s[..k] + s[k + 1..])
  {
    assert s == s[..k] + [s[k]] + s[k + 1..];
  }

  lemma {:induction false} MapSeqWithout<A, B>(f: A -> B, s: seq<A>, k: nat)
    requires k < |s|
    ensures multiset(MapSeq(f, s)) == multiset{f(s[k])} + multiset(MapSeq(f, s[..k] + s[k + 1..]))
  {
    Without(MapSeq(f, s), k);
    assert MapSeq(f, s)[..k] + MapSeq(f, s)[k + 1..] == MapSeq(f, s[..k] + s[k + 1..]);
  }

  // ---------------------------------------------------------------- stability

  function Filter<T>(p: T -> bool, s: seq<T>): seq<T> {
    if s == [] then [] else (if p(s[0]) then [s[0]] else []) + Filter(p, s[1..])
  }

  lemma {:induction false} FilterAt<T>(p: T -> bool, s: seq<T>, i: nat)
    requires i < |s| && p(s[i])
    ensures |Filter(p, s[..i])| < |Filter(p, s)| && Filter(p, s)[|Filter(p, s[..i])|] == s[i]
    decreases |s|
  {
    if i > 0 {
      FilterAt(p, s[1..], i - 1);
      assert s[..i][1..] == s[1..][..i - 1];
    } else {
      assert s[..0] == [];
    }
  }

  /** Elements that tie with each other: all of them, or none that the filter keeps. */
  ghost predicate Ties<T(!new)>(leq: (T, T) -> bool, p: T -> bool) {
    forall a, b :: p(a) && p(b) ==> leq(a, b)
  }

  lemma {:induction false} InsertKeepsTies<T(!new)>(leq: (T, T) -> bool, p: T -> bool, x: T, s: seq<T>)
    requires Ties(leq, p)
    ensures Filter(p, Insert(leq, x, s)) == (if p(x) then [x] else []) + Filter(p, s)
    decreases |s|
  {
    FilterCons(p, x, s);
    if s != [] && !leq(x, s[0]) {
      InsertKeepsTies(leq, p, x, s[1..]);
      FilterCons(p, s[0], Insert(leq, x, s[1..]));
      assert !(p(x) && p(s[0]));
    }
  }

  lemma {:induction false} FilterCons<T>(p: T -> bool, x: T, s: seq<T>)
    ensures Filter(p, [x] + s) == (if p(x) then [x] else []) + Filter(p, s)
  {
    assert ([x] + s)[1..] == s;
  }

  /** A stable sort keeps the order of elements that tie. */
  lemma {:induction false} SortKeepsTies<T(!new)>(leq: (T, T) -> bool, p: T -> bool, s: seq<T>)
    requires Ties(leq, p)
    ensures Filter(p, Sort(leq, s)) == Filter(p, s)
    decreases |s|
  {
    if s != [] {
      SortKeepsTies(leq, p, s[1..]);
      InsertKeepsTies(leq, p, s[0], Sort(leq, s[1..]));
    }
  }
}
