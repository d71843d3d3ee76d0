/** Small notions that several modules share. */
module Basics {

  datatype Option<T> = None | Some(value: T)

  function Min(x: int, y: int): int {
    if x < y then x else y
  }

  function Max(x: int, y: int): int {
    if x < y then y else x
  }

  // The natural numbers below a bound.
  function Below(n: nat): (r: set<nat>)
    ensures forall k: nat :: k in r <==> k < n
  {
    if n == 0 then {} else Below(n - 1) + {n - 1}
  }

  lemma {:induction false} BelowCount(n: nat)
    ensures |Below(n)| == n
  {
    if n > 0 {
      BelowCount(n - 1);
    }
  }

  predicate NoDuplicates<T(==)>(s: seq<T>) {
    forall i, j :: 0 <= i < j < |s| ==> s[i] != s[j]
  }

  lemma {:induction false} OccursOnce<T>(s: seq<T>, x: T)
    requires NoDuplicates(s)
    ensures multiset(s)[x] == if x in s then 1 else 0
  {
    if s != [] {
      assert s == [s[0]] + s[1..];
      OccursOnce(s[1..], x);
    }
  }

  // ---- sequences with some elements dropped ----

  function Filter<T>(s: seq<T>, keep: T -> bool): seq<T> {
    if s == [] then [] else (if keep(s[0]) then [s[0]] else []) + Filter(s[1..], keep)
  }

  // Each element is kept as often as it occurs, or not at all.
  lemma {:induction false} FilterCounts<T>(s: seq<T>, keep: T -> bool, x: T)
    ensures multiset(Filter(s, keep))[x] == if keep(x) then multiset(s)[x] else 0
  {
    if s != [] {
      FilterCounts(s[1..], keep, x);
      assert s == [s[0]] + s[1..];
    }
  }

  // The places, in order, of the elements that are kept.
  function Places<T>(s: seq<T>, keep: T -> bool): (r: seq<nat>)
    ensures forall i :: 0 <= i < |r| ==> r[i] < |s| && keep(s[r[i]])
    ensures forall i, j :: 0 <= i < j < |r| ==> r[i] < r[j]
  {
    if s == [] then []
    else
      var init := s[..|s| - 1];
      Places(init, keep) + if keep(s[|s| - 1]) then [|s| - 1] else []
  }

  lemma Regrouped<T>(x: seq<T>, y: seq<T>, z: seq<T>)
    ensures x + (y + z) == x + y + z
  {
  }

  lemma {:induction false} FilterLast<T>(s: seq<T>, last: T, keep: T -> bool)
    ensures Filter(s + [last], keep) == Filter(s, keep) + if keep(last) then [last] else []
  {
    if s == [] {
      assert (s + [last])[1..] == [];
    } else {
      var all, rest := s + [last], s[1..];
      assert all[0] == s[0] && all[1..] == rest + [last];
      FilterLast(rest, last, keep);
      Regrouped(if keep(s[0]) then [s[0]] else [], Filter(rest, keep), if keep(last) then [last] else []);
    }
  }

  // The elements at these places.
  ghost predicate AreAt<T>(r: seq<T>, s: seq<T>, at: seq<nat>) {
    |r| == |at| && forall i :: 0 <= i < |at| ==> at[i] < |s| && r[i] == s[at[i]]
  }

  lemma AreAtMore<T>(r: seq<T>, init: seq<T>, last: T, at: seq<nat>)
    requires AreAt(r, init, at)
    ensures AreAt(r, init + [last], at) && AreAt(r + [last], init + [last], at + [|init|])
  {
  }

  // The elements kept are those at these places, in the same order.
  lemma {:induction false} FilterOrder<T>(s: seq<T>, keep: T -> bool)
    ensures AreAt(Filter(s, keep), s, Places(s, keep))
    decreases |s|
  {
    if s != [] {
      var init, last := s[..|s| - 1], s[|s| - 1];
      FilterOrder(init, keep);
      AreAtMore(Filter(init, keep), init, last, Places(init, keep));
      FilterLast(init, last, keep);
      assert s == init + [last];
    }
  }

  lemma {:induction false} AllKept<T>(s: seq<T>, keep: T -> bool)
    requires forall x <- s :: keep(x)
    ensures Filter(s, keep) == s
  {
    if s != [] {
      assert s[0] in s && forall x <- s[1..] :: x in s;
      AllKept(s[1..], keep);
      assert s == [s[0]] + s[1..];
    }
  }

  lemma FilterFirst<T>(first: T, rest: seq<T>, keep: T -> bool)
    ensures Filter([first] + rest, keep) == (if keep(first) then [first] else []) + Filter(rest, keep)
  {
    assert ([first] + rest)[1..] == rest;
  }

  lemma {:induction false} FilterTwice<T>(s: seq<T>, p: T -> bool, q: T -> bool, both: T -> bool)
    requires forall x <- s :: both(x) <==> p(x) && q(x)
    ensures Filter(Filter(s, p), q) == Filter(s, both)
  {
    if s != [] {
      assert s[0] in s && forall x <- s[1..] :: x in s;
      var kept := Filter(s[1..], p);
      FilterTwice(s[1..], p, q, both);
      FilterFirst(s[0], kept, q);
      assert [] + kept == kept;
    }
  }
}
