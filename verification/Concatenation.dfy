/** Pieces written one after another. */
module Concatenation {

  function Concat<T, U>(put: T -> seq<U>, xs: seq<T>): seq<U> {
    if xs == [] then [] else put(xs[0]) + Concat(put, xs[1..])
  }

  lemma Assoc<U>(a: seq<U>, b: seq<U>, c: seq<U>)
    ensures a + b + c == a + (b + c)
  {
  }

  lemma {:induction false} ConcatAppend<T, U>(put: T -> seq<U>, a: seq<T>, b: seq<T>)
    ensures Concat(put, a + b) == Concat(put, a) + Concat(put, b)
  {
    if a == [] {
      assert a + b == b;
    } else {
      ConcatAppend(put, a[1..], b);
      assert (a + b)[1..] == a[1..] + b && (a + b)[0] == a[0];
      Assoc(put(a[0]), Concat(put, a[1..]), Concat(put, b));
    }
  }

  lemma ConcatOne<T, U>(put: T -> seq<U>, x: T)
    ensures Concat(put, [x]) == put(x)
  {
    assert [x][1..] == [];
    assert Concat(put, [x]) == put(x) + Concat(put, []);
  }

  lemma ConcatNext<T, U>(put: T -> seq<U>, xs: seq<T>, x: T)
    ensures Concat(put, xs + [x]) == Concat(put, xs) + put(x)
  {
    ConcatAppend(put, xs, [x]);
    ConcatOne(put, x);
  }

  lemma ConcatUpTo<T, U>(put: T -> seq<U>, xs: seq<T>, i: nat)
    requires i < |xs|
    ensures Concat(put, xs[..i + 1]) == Concat(put, xs[..i]) + put(xs[i])
  {
    ConcatNext(put, xs[..i], xs[i]);
    assert xs[..i + 1] == xs[..i] + [xs[i]];
  }

  lemma ConcatGrows<T, U>(put: T -> seq<U>, xs: seq<T>, i: nat)
    requires i <= |xs|
    ensures |Concat(put, xs[..i])| <= |Concat(put, xs)|
  {
    ConcatAppend(put, xs[..i], xs[i..]);
    assert xs == xs[..i] + xs[i..];
  }
}
