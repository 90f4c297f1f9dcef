/**
 Stable sorting by any order, as a function.
 */
module Sorting {

  /** Any two elements compare, and comparing is transitive. */
  ghost predicate IsOrder<T(!new)>(le: (T, T) -> bool) {
    && (forall x, y :: le(x, y) || le(y, x))
    && (forall x, y, z :: le(x, y) && le(y, z) ==> le(x, z))
  }

  ghost predicate Ordered<T>(le: (T, T) -> bool, s: seq<T>) {
    forall i, j :: 0 <= i < j < |s| ==> le(s[i], s[j])
  }

  function Inserted<T>(le: (T, T) -> bool, x: T, s: seq<T>): seq<T> {
    if s == [] || le(x, s[0]) then [x] + s else [s[0]] + Inserted(le, x, s[1..])
  }

  /** Equal elements keep their order. */
  function Sorted<T>(le: (T, T) -> bool, s: seq<T>): seq<T> {
    if s == [] then [] else Inserted(le, s[0], Sorted(le, s[1..]))
  }

  lemma {:induction false} InsertedPermutes<T>(le: (T, T) -> bool, x: T, s: seq<T>)
    ensures multiset(Inserted(le, x, s)) == multiset{x} + multiset(s)
  {
    if s != [] && !le(x, s[0]) {
      InsertedPermutes(le, x, s[1..]);
      assert s == [s[0]] + s[1..];
    }
  }

  lemma HeadIsOrdered<T>(le: (T, T) -> bool, x: T, s: seq<T>)
    requires Ordered(le, s) && forall y | y in multiset(s) :: le(x, y)
    ensures Ordered(le, [x] + s)
  {
    forall i, j | 0 <= i < j < |[x] + s| ensures le(([x] + s)[i], ([x] + s)[j]) {
      assert s[j - 1] in multiset(s);
    }
  }

  lemma {:induction false} InsertedIsOrdered<T(!new)>(le: (T, T) -> bool, x: T, s: seq<T>)
    requires IsOrder(le) && Ordered(le, s)
    ensures Ordered(le, Inserted(le, x, s))
  {
    if s == [] || le(x, s[0]) {
      forall y | y in multiset(s) ensures le(x, y) {
        var i :| 0 <= i < |s| && s[i] == y;
        assert i > 0 ==> le(s[0], s[i]);
      }
      HeadIsOrdered(le, x, s);
    } else {
      InsertedIsOrdered(le, x, s[1..]);
      InsertedPermutes(le, x, s[1..]);
      forall y | y in multiset(Inserted(le, x, s[1..])) ensures le(s[0], y) {
        assert y == x || y in s[1..];
      }
      HeadIsOrdered(le, s[0], Inserted(le, x, s[1..]));
    }
  }

  lemma {:induction false} SortedPermutes<T>(le: (T, T) -> bool, s: seq<T>)
    ensures multiset(Sorted(le, s)) == multiset(s)
  {
    if s != [] {
      SortedPermutes(le, s[1..]);
      InsertedPermutes(le, s[0], Sorted(le, s[1..]));
      assert s == [s[0]] + s[1..];
    }
  }

  lemma {:induction false} SortedIsOrdered<T(!new)>(le: (T, T) -> bool, s: seq<T>)
    requires IsOrder(le)
    ensures Ordered(le, Sorted(le, s))
  {
    if s != [] {
      SortedIsOrdered(le, s[1..]);
      InsertedIsOrdered(le, s[0], Sorted(le, s[1..]));
    }
  }

  lemma SortedHasTheSame<T(!new)>(le: (T, T) -> bool, s: seq<T>)
    ensures forall x :: x in Sorted(le, s) <==> x in s
  {
    SortedPermutes(le, s);
    forall x ensures x in Sorted(le, s) <==> x in s {
      assert x in Sorted(le, s) <==> x in multiset(Sorted(le, s));
      assert x in s <==> x in multiset(s);
    }
  }
}
