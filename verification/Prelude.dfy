/** Small shared vocabulary: optional values, results, and facts about finite collections. */
module Prelude {
  datatype Option<+T> = None | Some(value: T)

  datatype Result<+T, +E> = Ok(value: T) | Err(error: E)

  /** No element occurs twice. */
  ghost predicate Distinct<T>(s: seq<T>) {
    forall i, j :: 0 <= i < j < |s| ==> s[i] != s[j]
  }

  /** Pigeonhole: a duplicate-free list drawn from a finite set is no longer than the set is large. */
  lemma {:induction false} DistinctWithin<T>(s: seq<T>, bound: set<T>)
    requires Distinct(s)
    requires forall x :: x in s ==> x in bound
    ensures |s| <= |bound|
  {
    if s != [] {
      var last := s[|s| - 1];
      assert last in s;
      var front := s[..|s| - 1];
      assert forall x :: x in front ==> x in s;
      DistinctWithin(front, bound - {last});
    }
  }

  /** Appending an element keeps a list duplicate-free exactly when the element is new. */
  lemma DistinctAppend<T>(s: seq<T>, x: T)
    ensures Distinct(s + [x]) <==> Distinct(s) && x !in s
  {
    var t := s + [x];
    assert forall i :: 0 <= i < |s| ==> t[i] == s[i];
    if i :| 0 <= i < |s| && s[i] == x {
      assert t[i] == t[|s|];
    }
  }

  lemma CutAt<T>(s: seq<T>, n: nat)
    requires n <= |s|
    ensures s == s[..n] + s[n..]
  {
  }

  lemma SameSlices<T>(s: seq<T>, t: seq<T>, n: nat, i: nat, j: nat)
    requires i <= j <= n <= |s| && n <= |t| && s[..n] == t[..n]
    ensures s[i..j] == t[i..j]
  {
    assert forall k :: i <= k < j ==> s[k] == s[..n][k] && t[k] == t[..n][k];
  }

  function Power(base: nat, exponent: nat): nat {
    if exponent == 0 then 1 else base * Power(base, exponent - 1)
  }

  /** The results of f over a list, joined in order. */
  function FlatMap<T, U>(f: T -> seq<U>, s: seq<T>): seq<U> {
    if s == [] then [] else f(s[0]) + FlatMap(f, s[1..])
  }

  lemma FlatMapOne<T, U>(f: T -> seq<U>, x: T)
    ensures FlatMap(f, [x]) == f(x)
  {
    assert [x][1..] == [];
    assert FlatMap(f, [x]) == f([x][0]) + FlatMap(f, [x][1..]);
    assert f(x) + [] == f(x);
  }

  lemma {:induction false} FlatMapAppend<T, U>(f: T -> seq<U>, a: seq<T>, b: seq<T>)
    ensures FlatMap(f, a + b) == FlatMap(f, a) + FlatMap(f, b)
  {
    if a == [] {
      assert a + b == b;
    } else {
      FlatMapAppend(f, a[1..], b);
      assert (a + b)[0] == a[0] && (a + b)[1..] == a[1..] + b;
      var x, y, z := f(a[0]), FlatMap(f, a[1..]), FlatMap(f, b);
      assert x + (y + z) == x + y + z;
    }
  }

  function Map<T, U>(f: T -> U, s: seq<T>): (r: seq<U>)
    ensures |r| == |s| && forall i :: 0 <= i < |s| ==> r[i] == f(s[i])
  {
    seq(|s|, i requires 0 <= i < |s| => f(s[i]))
  }

  /** The elements with a property, in order. */
  function Filter<T>(p: T -> bool, s: seq<T>): seq<T> {
    if s == [] then []
    else Filter(p, s[..|s| - 1]) + if p(s[|s| - 1]) then [s[|s| - 1]] else []
  }

  lemma FilterAppend<T>(p: T -> bool, s: seq<T>, x: T)
    ensures Filter(p, s + [x]) == Filter(p, s) + if p(x) then [x] else []
  {
    assert (s + [x])[..|s|] == s;
  }

  lemma {:induction false} FilterExact<T>(p: T -> bool, s: seq<T>)
    ensures forall x :: x in Filter(p, s) <==> x in s && p(x)
  {
    if s != [] {
      var front, last := s[..|s| - 1], s[|s| - 1];
      FilterExact(p, front);
      assert s == front + [last];
      assert forall x :: x in s <==> x in front || x == last;
    }
  }
}
