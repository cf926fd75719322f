/** Iteration and folding, and how linear steps make linear folds. */
module Folds {

  function Iterate<T>(f: T -> T, x: T, n: nat): T
    decreases n, x
  {
    if n == 0 then x else Iterate(f, f(x), n - 1)
  }

  lemma {:induction false} IterateLast<T>(f: T -> T, x: T, n: nat)
    ensures Iterate(f, x, n + 1) == f(Iterate(f, x, n))
    decreases n
  {
    if n > 0 {
      IterateLast(f, f(x), n - 1);
    }
  }

  function Fold<S, T>(f: (S, T) -> S, s: S, data: seq<T>): S
    decreases |data|
  {
    if data == [] then s else Fold(f, f(s, data[0]), data[1..])
  }

  function Zip<T>(f: (T, T) -> T, a: seq<T>, b: seq<T>): (r: seq<T>)
    requires |a| == |b|
    ensures |r| == |a| && forall i :: 0 <= i < |a| ==> r[i] == f(a[i], b[i])
  {
    seq(|a|, i requires 0 <= i < |a| => f(a[i], b[i]))
  }

  lemma {:induction false} FoldConcat<S, T>(f: (S, T) -> S, s: S, a: seq<T>, b: seq<T>)
    ensures Fold(f, s, a + b) == Fold(f, Fold(f, s, a), b)
    decreases |a|
  {
    if a == [] {
      assert a + b == b;
    } else {
      assert (a + b)[1..] == a[1..] + b;
      FoldConcat(f, f(s, a[0]), a[1..], b);
    }
  }

  /** `plus` is commutative and associative. */
  ghost predicate Additive<T(!new)>(plus: (T, T) -> T) {
    && (forall x, y :: plus(x, y) == plus(y, x))
    && (forall x, y, z :: plus(plus(x, y), z) == plus(x, plus(y, z)))
  }

  ghost predicate Linear<T(!new)>(f: T -> T, plus: (T, T) -> T) {
    forall a, b :: f(plus(a, b)) == plus(f(a), f(b))
  }

  ghost predicate Bilinear<T(!new)>(f: (T, T) -> T, plus: (T, T) -> T) {
    forall s, s', t, t' :: f(plus(s, s'), plus(t, t')) == plus(f(s, t), f(s', t'))
  }

  lemma PlusSwap<T(!new)>(plus: (T, T) -> T, a: T, b: T, c: T, d: T)
    requires Additive(plus)
    ensures plus(plus(a, b), plus(c, d)) == plus(plus(a, c), plus(b, d))
  {
  }

  lemma SumLinear<T(!new)>(f: T -> T, g: T -> T, h: T -> T, plus: (T, T) -> T)
    requires Additive(plus) && Linear(f, plus) && Linear(g, plus)
    requires forall x :: h(x) == plus(f(x), g(x))
    ensures Linear(h, plus)
  {
  }

  lemma LinearSplit<T(!new)>(f: T -> T, plus: (T, T) -> T, x: T, y: T, high: T, low: T)
    requires Additive(plus) && Linear(f, plus)
    requires f(y) == plus(f(high), low)
    ensures f(plus(x, y)) == plus(f(plus(x, high)), low)
  {
  }

  lemma {:induction false} IterateLinear<T(!new)>(f: T -> T, plus: (T, T) -> T, x: T, y: T, n: nat)
    requires Linear(f, plus)
    ensures Iterate(f, plus(x, y), n) == plus(Iterate(f, x, n), Iterate(f, y, n))
    decreases n
  {
    if n > 0 {
      IterateLinear(f, plus, f(x), f(y), n - 1);
    }
  }

  lemma {:induction false} FoldLinear<T(!new)>(f: (T, T) -> T, plus: (T, T) -> T,
                                               c: T, d: T, a: seq<T>, b: seq<T>)
    requires |a| == |b|
    requires Bilinear(f, plus)
    ensures Fold(f, plus(c, d), Zip(plus, a, b)) == plus(Fold(f, c, a), Fold(f, d, b))
    decreases |a|
  {
    if a != [] {
      assert Zip(plus, a, b)[1..] == Zip(plus, a[1..], b[1..]);
      FoldLinear(f, plus, f(c, a[0]), f(d, b[0]), a[1..], b[1..]);
    }
  }
}
