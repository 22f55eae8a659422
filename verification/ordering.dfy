/**
  Ordering and selection over sequences of keys: the `order_by` and
  `filter` semantics that the gallery's queries rely on, stated once and
  reused by every listing.
*/
module Ordering {

  /** `le` relates every pair one way or the other. */
  ghost predicate Total<T(!new)>(le: (T, T) -> bool) {
    forall a, b :: le(a, b) || le(b, a)
  }

  ghost predicate Transitive<T(!new)>(le: (T, T) -> bool) {
    forall a, b, c :: le(a, b) && le(b, c) ==> le(a, c)
  }

  /** The orderings an `order_by` can sort by: total and transitive, ties allowed. */
  ghost predicate TotalPreorder<T(!new)>(le: (T, T) -> bool) {
    Total(le) && Transitive(le)
  }

  ghost predicate SortedBy<T>(s: seq<T>, le: (T, T) -> bool) {
    forall i, j :: 0 <= i < j < |s| ==> le(s[i], s[j])
  }

  /** No key occurs twice: a query returns each row once. */
  ghost predicate Distinct<T>(s: seq<T>) {
    forall i, j :: 0 <= i < j < |s| ==> s[i] != s[j]
  }

  /** Inserts `x` into the sorted `s` before the first element it may precede. */
  function Insert<T(!new)>(x: T, s: seq<T>, le: (T, T) -> bool): (r: seq<T>)
    requires TotalPreorder(le)
    requires SortedBy(s, le)
    ensures multiset(r) == multiset(s) + multiset{x}
    ensures SortedBy(r, le)
    ensures Distinct(s) && x !in s ==> Distinct(r)
  {
    if s == [] then [x]
    else if le(x, s[0]) then
      InsertFront(x, s, le);
      [x] + s
    else
      TailOf(x, s, le);
      var rest := Insert(x, s[1..], le);
      InsertBehind(x, s, rest, le);
      [s[0]] + rest
  }

  /** An element that may precede the head of a sorted sequence may go in front of it. */
  lemma InsertFront<T(!new)>(x: T, s: seq<T>, le: (T, T) -> bool)
    requires Transitive(le) && SortedBy(s, le)
    requires s != [] && le(x, s[0])
    ensures SortedBy([x] + s, le)
    ensures Distinct(s) && x !in s ==> Distinct([x] + s)
  {
  }

  /** The tail of a sorted, repeat-free sequence is sorted and repeat-free. */
  lemma TailOf<T>(x: T, s: seq<T>, le: (T, T) -> bool)
    requires s != [] && SortedBy(s, le)
    ensures SortedBy(s[1..], le)
    ensures Distinct(s) && x !in s ==> Distinct(s[1..]) && x !in s[1..]
    ensures forall z :: z in s[1..] ==> le(s[0], z)
  {
  }

  /** When `x` goes after the head, the head stays in front of the insertion into the tail. */
  lemma InsertBehind<T(!new)>(x: T, s: seq<T>, rest: seq<T>, le: (T, T) -> bool)
    requires Total(le) && s != [] && !le(x, s[0])
    requires forall z :: z in s[1..] ==> le(s[0], z)
    requires multiset(rest) == multiset(s[1..]) + multiset{x}
    requires SortedBy(rest, le)
    requires Distinct(s) && x !in s ==> Distinct(rest)
    ensures multiset([s[0]] + rest) == multiset(s) + multiset{x}
    ensures SortedBy([s[0]] + rest, le)
    ensures Distinct(s) && x !in s ==> Distinct([s[0]] + rest)
  {
    assert s == [s[0]] + s[1..];
    BoundOfInsert(s[0], x, s[1..], rest, le);
    ConsSorted(s[0], rest, le);
    if Distinct(s) && x !in s {
      assert s[0] !in s[1..];
      assert s[0] !in multiset(rest);
    }
  }

  /** A lower bound of `s` and of `x` bounds every element of `s` with `x` added. */
  lemma BoundOfInsert<T(!new)>(b: T, x: T, s: seq<T>, t: seq<T>, le: (T, T) -> bool)
    requires Total(le) && !le(x, b)
    requires multiset(t) == multiset(s) + multiset{x}
    requires forall z :: z in s ==> le(b, z)
    ensures forall z :: z in t ==> le(b, z)
  {
    forall z | z in t ensures le(b, z) {
      assert z in multiset(t);
      if z != x {
        assert z in multiset(s);
      }
    }
  }

  /** Putting a lower bound in front of a sorted sequence keeps it sorted. */
  lemma ConsSorted<T>(b: T, t: seq<T>, le: (T, T) -> bool)
    requires SortedBy(t, le)
    requires forall z :: z in t ==> le(b, z)
    ensures SortedBy([b] + t, le)
  {
  }

  /** Sorts `s` by `le` (insertion sort); the result is a permutation of `s`. */
  function SortBy<T(!new)>(s: seq<T>, le: (T, T) -> bool): (r: seq<T>)
    requires TotalPreorder(le)
    ensures multiset(r) == multiset(s)
    ensures SortedBy(r, le)
    ensures Distinct(s) ==> Distinct(r)
  {
    if s == [] then []
    else
      var sorted := SortBy(s[1..], le);
      SortStep(s, sorted);
      Insert(s[0], sorted, le)
  }

  lemma SortStep<T>(s: seq<T>, sorted: seq<T>)
    requires s != [] && multiset(sorted) == multiset(s[1..])
    requires Distinct(s[1..]) ==> Distinct(sorted)
    ensures multiset(sorted) + multiset{s[0]} == multiset(s)
    ensures Distinct(s) ==> Distinct(sorted) && s[0] !in sorted
  {
    assert s == [s[0]] + s[1..];
    if Distinct(s) {
      assert s[0] !in multiset(s[1..]);
    }
  }

  /** Sequences that are permutations of each other hold the same elements. */
  lemma SameMembers<T>(a: seq<T>, b: seq<T>)
    requires multiset(a) == multiset(b)
    ensures forall z :: z in a <==> z in b
  {
    forall z ensures z in a <==> z in b {
      assert z in a <==> z in multiset(a);
      assert z in b <==> z in multiset(b);
    }
  }

  /**
    The keys of `m` below `n` whose value satisfies `keep`, in increasing
    key order: a table scan with a `WHERE` clause.
  */
  function KeysWhere<V>(m: map<nat, V>, n: nat, keep: V -> bool): (r: seq<nat>)
    ensures forall k :: k in r <==> k < n && k in m && keep(m[k])
    ensures forall i, j :: 0 <= i < j < |r| ==> r[i] < r[j]
  {
    if n == 0 then []
    else
      var below := KeysWhere(m, n - 1, keep);
      assert forall i :: 0 <= i < |below| ==> below[i] < n - 1 by {
        forall i | 0 <= i < |below| ensures below[i] < n - 1 {
          assert below[i] in below;
        }
      }
      below + (if n - 1 in m && keep(m[n - 1]) then [n - 1] else [])
  }

  lemma IncreasingIsDistinct(s: seq<nat>)
    requires forall i, j :: 0 <= i < j < |s| ==> s[i] < s[j]
    ensures Distinct(s)
  {
  }
}
