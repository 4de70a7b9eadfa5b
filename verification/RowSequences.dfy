/** Selection and stable sorting of row sequences. */
module RowSequences {

  function Select<T>(s: seq<T>, p: T -> bool): (r: seq<T>)
    ensures forall x :: x in r ==> x in s && p(x)
  {
    if s == [] then [] else if p(s[0]) then [s[0]] + Select(s[1..], p) else Select(s[1..], p)
  }

  lemma {:induction false} SelectSelect<T>(s: seq<T>, p: T -> bool, q: T -> bool, both: T -> bool)
    requires forall x :: x in s ==> (both(x) <==> p(x) && q(x))
    ensures Select(Select(s, p), q) == Select(s, both)
  {
    if s != [] {
      SelectSelect(s[1..], p, q, both);
      assert both(s[0]) <==> p(s[0]) && q(s[0]);
      if p(s[0]) {
        assert Select(s, p)[1..] == Select(s[1..], p);
      }
    }
  }

  lemma {:induction false} SelectAll<T>(s: seq<T>, p: T -> bool)
    requires forall x :: x in s ==> p(x)
    ensures Select(s, p) == s
  {
    if s != [] { SelectAll(s[1..], p); }
  }

  // ----- insertion sort: an element goes before the first one that is not smaller

  function Insert<T(!new)>(x: T, s: seq<T>, le: (T, T) -> bool): (r: seq<T>)
    ensures forall y :: y in r <==> y == x || y in s
    ensures multiset(r) == multiset(s) + multiset{x}
  {
    if s == [] then [x]
    else if le(x, s[0]) then
      assert multiset([x] + s) == multiset{x} + multiset(s);
      [x] + s
    else
      assert s == [s[0]] + s[1..];
      [s[0]] + Insert(x, s[1..], le)
  }

  function Sort<T(!new)>(s: seq<T>, le: (T, T) -> bool): (r: seq<T>)
    ensures forall y :: y in r <==> y in s
    ensures multiset(r) == multiset(s)
  {
    if s == [] then []
    else
      assert s == [s[0]] + s[1..];
      Insert(s[0], Sort(s[1..], le), le)
  }

  ghost predicate TotalPreorder<T(!new)>(le: (T, T) -> bool) {
    && (forall x, y :: le(x, y) || le(y, x))
    && (forall x, y, z :: le(x, y) && le(y, z) ==> le(x, z))
  }

  ghost predicate Sorted<T>(s: seq<T>, le: (T, T) -> bool) {
    forall i, j :: 0 <= i < j < |s| ==> le(s[i], s[j])
  }

  lemma {:induction false} InsertSorted<T(!new)>(x: T, s: seq<T>, le: (T, T) -> bool)
    requires TotalPreorder(le) && Sorted(s, le)
    ensures Sorted(Insert(x, s, le), le)
  {
    if s != [] && !le(x, s[0]) {
      InsertSorted(x, s[1..], le);
      var rest := Insert(x, s[1..], le);
      forall j | 0 <= j < |rest| ensures le(s[0], rest[j]) {
        assert rest[j] in rest;
        if rest[j] != x { var k :| 0 <= k < |s[1..]| && s[1..][k] == rest[j]; assert s[k + 1] == rest[j]; }
      }
    }
  }

  lemma {:induction false} SortSorted<T(!new)>(s: seq<T>, le: (T, T) -> bool)
    requires TotalPreorder(le)
    ensures Sorted(Sort(s, le), le)
  {
    if s != [] {
      SortSorted(s[1..], le);
      InsertSorted(s[0], Sort(s[1..], le), le);
    }
  }

  lemma {:induction false} SelectInsert<T(!new)>(x: T, s: seq<T>, le: (T, T) -> bool, p: T -> bool)
    requires TotalPreorder(le) && Sorted(s, le)
    ensures Select(Insert(x, s, le), p) == if p(x) then Insert(x, Select(s, p), le) else Select(s, p)
  {
    if s == [] {
    } else if le(x, s[0]) {
      assert ([x] + s)[1..] == s;
      var kept := Select(s, p);
      if p(x) && kept != [] {
        assert kept[0] in kept;
        assert le(x, kept[0]);
      }
    } else {
      SelectInsert(x, s[1..], le, p);
      assert ([s[0]] + Insert(x, s[1..], le))[1..] == Insert(x, s[1..], le);
      if p(s[0]) {
        assert Select(s, p)[1..] == Select(s[1..], p);
      } else {
        assert Select(s, p) == Select(s[1..], p);
      }
    }
  }

  /** Filtering commutes with a stable sort. */
  lemma {:induction false} SelectSort<T(!new)>(s: seq<T>, le: (T, T) -> bool, p: T -> bool)
    requires TotalPreorder(le)
    ensures Select(Sort(s, le), p) == Sort(Select(s, p), le)
  {
    if s != [] {
      SelectSort(s[1..], le, p);
      SortSorted(s[1..], le);
      SelectInsert(s[0], Sort(s[1..], le), le, p);
      if p(s[0]) {
        assert Select(s, p)[1..] == Select(s[1..], p);
      } else {
        assert Select(s, p) == Select(s[1..], p);
      }
    }
  }

  lemma {:induction false} InsertAgrees<T(!new)>(x: T, s: seq<T>, le: (T, T) -> bool, le': (T, T) -> bool)
    requires forall y :: y in s ==> (le(x, y) <==> le'(x, y))
    ensures Insert(x, s, le) == Insert(x, s, le')
  {
    if s != [] { InsertAgrees(x, s[1..], le, le'); }
  }

  lemma {:induction false} SortAgrees<T(!new)>(s: seq<T>, le: (T, T) -> bool, le': (T, T) -> bool)
    requires forall x, y :: x in s && y in s ==> (le(x, y) <==> le'(x, y))
    ensures Sort(s, le) == Sort(s, le')
  {
    if s != [] {
      SortAgrees(s[1..], le, le');
      InsertAgrees(s[0], Sort(s[1..], le), le, le');
    }
  }

  lemma {:induction false} SortIdentity<T(!new)>(s: seq<T>, le: (T, T) -> bool)
    requires forall x, y :: x in s && y in s ==> le(x, y)
    ensures Sort(s, le) == s
  {
    if s != [] {
      SortIdentity(s[1..], le);
      if |s| > 1 { assert s[1] in s; assert s[0] in s; }
    }
  }
}
