/** Values written one after another, each in as many bytes as it needs. */
module Streams {
  import opened Options
  import opened WireLayout
  import opened Concatenation

  /** A value read off the front, and how many bytes it took. */
  datatype Reading<+T> = Reading(value: T, size: nat)

  function Parse<T>(first: seq<Byte> -> Option<Reading<T>>, n: nat, w: seq<Byte>): (r: Option<(seq<T>, seq<Byte>)>)
    ensures r.Some? ==> |r.value.0| == n && |r.value.1| <= |w|
  {
    if n == 0 then Some(([], w))
    else
      var head := first(w);
      if head.None? || head.value.size > |w| then None
      else
        var rest := Parse(first, n - 1, w[head.value.size..]);
        if rest.None? then None else Some(([head.value.value] + rest.value.0, rest.value.1))
  }

  /** Reading undoes writing, whatever follows. */
  ghost predicate Reads<T>(put: T -> seq<Byte>, first: seq<Byte> -> Option<Reading<T>>, x: T) {
    forall tail :: first(put(x) + tail) == Some(Reading(x, |put(x)|))
  }

  lemma {:induction false} ParseConcat<T>(put: T -> seq<Byte>, first: seq<Byte> -> Option<Reading<T>>, xs: seq<T>, tail: seq<Byte>)
    requires forall i :: 0 <= i < |xs| ==> Reads(put, first, xs[i])
    ensures Parse(first, |xs|, Concat(put, xs) + tail) == Some((xs, tail))
  {
    if xs == [] {
      assert Concat(put, xs) + tail == tail;
    } else {
      var x, more := xs[0], xs[1..];
      ParseConcat(put, first, more, tail);
      var rest := Concat(put, more) + tail;
      assert Concat(put, xs) + tail == put(x) + rest;
      assert Reads(put, first, x);
      assert (put(x) + rest)[|put(x)|..] == rest;
      assert xs == [x] + more;
    }
  }

  /** Every value read occupies as many bytes as it would be written in. */
  ghost predicate Sized<T>(put: T -> seq<Byte>, first: seq<Byte> -> Option<Reading<T>>, w: seq<Byte>) {
    first(w).Some? && first(w).value.size <= |w| ==> |put(first(w).value.value)| == first(w).value.size
  }

  /** The first `n` values stand in `w` as they would be written. */
  predicate Canonical<T(==)>(put: T -> seq<Byte>, first: seq<Byte> -> Option<Reading<T>>, n: nat, w: seq<Byte>) {
    n == 0 || first(w).None? || first(w).value.size > |w|
    || (put(first(w).value.value) == w[..first(w).value.size] && Canonical(put, first, n - 1, w[first(w).value.size..]))
  }

  /** The first `n` values all pass a test of the bytes they stand in. */
  predicate AllPass<T>(first: seq<Byte> -> Option<Reading<T>>, test: seq<Byte> -> bool, n: nat, w: seq<Byte>) {
    n == 0 || first(w).None? || first(w).value.size > |w|
    || (test(w) && AllPass(first, test, n - 1, w[first(w).value.size..]))
  }

  /** The test says whether the first value stands in `v` as it would be written. */
  ghost predicate Decides<T>(put: T -> seq<Byte>, first: seq<Byte> -> Option<Reading<T>>, test: seq<Byte> -> bool, v: seq<Byte>) {
    first(v).Some? && first(v).value.size <= |v| ==> (test(v) <==> put(first(v).value.value) == v[..first(v).value.size])
  }

  lemma {:induction false} PassIsCanonical<T>(put: T -> seq<Byte>, first: seq<Byte> -> Option<Reading<T>>, test: seq<Byte> -> bool,
                                              n: nat, w: seq<Byte>)
    requires forall v :: Decides(put, first, test, v)
    ensures AllPass(first, test, n, w) <==> Canonical(put, first, n, w)
  {
    if n > 0 && first(w).Some? && first(w).value.size <= |w| {
      assert Decides(put, first, test, w);
      PassIsCanonical(put, first, test, n - 1, w[first(w).value.size..]);
    }
  }

  lemma SplitEqual(a: seq<Byte>, b: seq<Byte>, w: seq<Byte>)
    requires |a| <= |w|
    ensures a + b == w <==> a == w[..|a|] && b == w[|a|..]
  {
    assert w == w[..|a|] + w[|a|..];
    assert (a + b)[..|a|] == a && (a + b)[|a|..] == b;
  }

  lemma ConsSplit(a: seq<Byte>, b: seq<Byte>, rest: seq<Byte>, w: seq<Byte>)
    requires |a| <= |w| && |b| + |rest| == |w| - |a| && rest == w[|a|..][|b|..]
    ensures rest == w[|a + b|..]
    ensures a + b + rest == w <==> a == w[..|a|] && b + rest == w[|a|..]
  {
    SplitEqual(a, b + rest, w);
    assert a + b + rest == a + (b + rest);
  }

  /** What was parsed concatenates back to `w` exactly when it stood there as written. */
  lemma {:induction false} ConcatParse<T>(put: T -> seq<Byte>, first: seq<Byte> -> Option<Reading<T>>, n: nat, w: seq<Byte>,
                                          xs: seq<T>, rest: seq<Byte>)
    requires Parse(first, n, w) == Some((xs, rest)) && forall v :: Sized(put, first, v)
    ensures |Concat(put, xs)| + |rest| == |w| && rest == w[|Concat(put, xs)|..]
    ensures Concat(put, xs) + rest == w <==> Canonical(put, first, n, w)
  {
    if n == 0 {
      assert Concat(put, xs) + rest == w;
    } else {
      var x, cut := first(w).value.value, first(w).value.size;
      var more := Parse(first, n - 1, w[cut..]).value.0;
      ConcatParse(put, first, n - 1, w[cut..], more, rest);
      assert xs == [x] + more && xs[1..] == more;
      assert Sized(put, first, w);
      ConsSplit(put(x), Concat(put, more), rest, w);
    }
  }

  // ----- as loops

  method WriteAll<T>(put: T -> seq<Byte>, xs: seq<T>) returns (w: seq<Byte>)
    ensures w == Concat(put, xs)
  {
    w := [];
    for i := 0 to |xs|
      invariant w == Concat(put, xs[..i])
    {
      ConcatUpTo(put, xs, i);
      w := w + put(xs[i]);
    }
    assert xs[..|xs|] == xs;
  }

  /** Adds up sizes and gives up as soon as the limit is passed. */
  method MeasureAll<T>(put: T -> seq<Byte>, size: T -> nat, xs: seq<T>, start: nat, limit: nat) returns (total: Option<nat>)
    requires start <= limit && forall i :: 0 <= i < |xs| ==> size(xs[i]) == |put(xs[i])|
    ensures total == if start + |Concat(put, xs)| <= limit then Some(start + |Concat(put, xs)|) else None
  {
    var sum := start;
    for i := 0 to |xs|
      invariant sum == start + |Concat(put, xs[..i])| <= limit
    {
      ConcatUpTo(put, xs, i);
      if size(xs[i]) > limit - sum {
        ConcatGrows(put, xs, i + 1);
        return None;
      }
      sum := sum + size(xs[i]);
    }
    assert xs[..|xs|] == xs;
    total := Some(sum);
  }

  /** Values read so far, then those still to be read. */
  function Joined<T>(done: seq<T>, rest: Option<(seq<T>, seq<Byte>)>): Option<(seq<T>, seq<Byte>)> {
    if rest.None? then None else Some((done + rest.value.0, rest.value.1))
  }

  lemma JoinedStep<T>(first: seq<Byte> -> Option<Reading<T>>, done: seq<T>, n: nat, w: seq<Byte>)
    requires n > 0
    ensures first(w).None? || first(w).value.size > |w| ==> Joined(done, Parse(first, n, w)).None?
    ensures first(w).Some? && first(w).value.size <= |w| ==>
      Joined(done, Parse(first, n, w)) == Joined(done + [first(w).value.value], Parse(first, n - 1, w[first(w).value.size..]))
  {
    if first(w).Some? && first(w).value.size <= |w| {
      var rest := Parse(first, n - 1, w[first(w).value.size..]);
      if rest.Some? { assert done + ([first(w).value.value] + rest.value.0) == done + [first(w).value.value] + rest.value.0; }
    }
  }

  lemma JoinedStart<T>(all: Option<(seq<T>, seq<Byte>)>)
    ensures Joined([], all) == all
  {
    if all.Some? { assert [] + all.value.0 == all.value.0; }
  }

  lemma JoinedEnd<T>(done: seq<T>, w: seq<Byte>)
    ensures Joined(done, Some(([], w))) == Some((done, w))
  {
    assert done + [] == done;
  }

  lemma SliceTail(b: seq<Byte>, from: nat, to: nat, size: nat)
    requires from <= to <= |b| && size <= to - from
    ensures b[from..to][size..] == b[from + size..to]
  {
  }

  /** Reads `n` values from `b[from..to]`; `offset` is where reading stopped. */
  method ReadAll<T>(first: seq<Byte> -> Option<Reading<T>>, b: seq<Byte>, from: nat, to: nat, n: nat)
    returns (ok: bool, xs: seq<T>, offset: nat)
    requires from <= to <= |b|
    ensures ok <==> Parse(first, n, b[from..to]).Some?
    ensures ok ==> from <= offset <= to && Parse(first, n, b[from..to]) == Some((xs, b[offset..to]))
  {
    offset, xs := from, [];
    ghost var all, rest := Parse(first, n, b[from..to]), b[from..to];
    JoinedStart(all);
    for index := 0 to n
      invariant from <= offset <= to && rest == b[offset..to] && |xs| == index
      invariant Joined(xs, Parse(first, n - index, rest)) == all
    {
      JoinedStep(first, xs, n - index, rest);
      var head := first(b[offset..to]);
      if !head.Some? || head.value.size > to - offset { return false, xs, offset; }
      xs := xs + [head.value.value];
      SliceTail(b, offset, to, head.value.size);
      offset, rest := offset + head.value.size, rest[head.value.size..];
    }
    ok := true;
    JoinedEnd(xs, rest);
  }
}
