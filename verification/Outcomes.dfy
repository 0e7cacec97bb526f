/** Result and optional values shared by every module of the model. */
module Outcomes {

  datatype Option<+T> = None | Some(value: T)

  /** `io::Result`: a value, or an error whose wording is not modelled. */
  datatype Result<+T, +E> = Ok(value: T) | Err(error: E)

  /** The three outcomes of comparing two positions. */
  datatype Ordering = Less | Equal | Greater

  /** Converts every element, or stops at the first that cannot be converted. */
  function Traverse<A, B, E>(f: A -> Result<B, E>, xs: seq<A>): Result<seq<B>, E> {
    if xs == [] then Ok([])
    else
      var front, last := Traverse(f, xs[..|xs| - 1]), f(xs[|xs| - 1]);
      if front.Err? then front else if last.Err? then Err(last.error) else Ok(front.value + [last.value])
  }

  lemma {:induction false} TraverseLast<A, B, E>(f: A -> Result<B, E>, front: seq<A>, x: A)
    requires Traverse(f, front).Ok? && f(x).Ok?
    ensures Traverse(f, front + [x]) == Ok(Traverse(f, front).value + [f(x).value])
  {
    var all := front + [x];
    assert all[..|all| - 1] == front;
  }

  lemma {:induction false} TraverseAppends<A, B, E>(f: A -> Result<B, E>, a: seq<A>, b: seq<A>)
    requires Traverse(f, a).Ok? && Traverse(f, b).Ok?
    ensures Traverse(f, a + b) == Ok(Traverse(f, a).value + Traverse(f, b).value)
    decreases |b|
  {
    if b == [] {
      assert a + b == a && Traverse(f, a).value + [] == Traverse(f, a).value;
    } else {
      var front, x := b[..|b| - 1], b[|b| - 1];
      TraverseAppends(f, a, front);
      TraverseLast(f, a + front, x);
      assert a + b == (a + front) + [x];
      var p, q, r := Traverse(f, a).value, Traverse(f, front).value, f(x).value;
      assert (p + q) + [r] == p + (q + [r]);
    }
  }

  lemma {:induction false} TraverseSplits<A, B, E>(f: A -> Result<B, E>, xs: seq<A>)
    requires xs != [] && Traverse(f, xs).Ok?
    ensures f(xs[0]).Ok? && Traverse(f, xs[1..]).Ok?
    ensures Traverse(f, xs).value == [f(xs[0]).value] + Traverse(f, xs[1..]).value
    decreases |xs|
  {
    var front, tail := xs[..|xs| - 1], xs[1..];
    if |xs| > 1 {
      TraverseSplits(f, front);
      assert tail[..|tail| - 1] == front[1..] && tail[|tail| - 1] == xs[|xs| - 1];
    }
  }

  lemma {:induction false} TraverseLength<A, B, E>(f: A -> Result<B, E>, xs: seq<A>)
    requires Traverse(f, xs).Ok?
    ensures |Traverse(f, xs).value| == |xs|
    decreases |xs|
  {
    if xs != [] {
      TraverseLength(f, xs[..|xs| - 1]);
    }
  }

  /** The first element that cannot be converted decides the error. */
  lemma {:induction false} TraverseFailsEarly<A, B, E>(f: A -> Result<B, E>, xs: seq<A>, n: nat)
    requires n <= |xs| && Traverse(f, xs[..n]).Err?
    ensures Traverse(f, xs) == Traverse(f, xs[..n])
    decreases |xs|
  {
    if n == |xs| {
      assert xs[..n] == xs;
    } else {
      var front := xs[..|xs| - 1];
      assert front[..n] == xs[..n];
      TraverseFailsEarly(f, front, n);
    }
  }
}
