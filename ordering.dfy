/** The ORDER BY clauses of the DAO queries. Each entity is given a sort key
    (primary column, secondary column, row id); descending columns are negated.
    The row id breaks the ties that SQLite leaves unspecified. */
module Ordering {

  datatype SortKey = SortKey(major: int, minor: int, tie: int)

  /** Lexicographic order on keys. */
  predicate KeyLe(a: SortKey, b: SortKey) {
    a.major < b.major
    || (a.major == b.major && (a.minor < b.minor || (a.minor == b.minor && a.tie <= b.tie)))
  }

  predicate SortedBy<T>(s: seq<T>, key: T -> SortKey) {
    forall i, j :: 0 <= i < j < |s| ==> KeyLe(key(s[i]), key(s[j]))
  }

  /** The head of a sorted sequence is at or below every element of its tail. */
  lemma HeadBelowTail<T>(s: seq<T>, key: T -> SortKey)
    requires SortedBy(s, key) && s != []
    ensures forall e :: e in s[1..] ==> KeyLe(key(s[0]), key(e))
  {
    forall e | e in s[1..] ensures KeyLe(key(s[0]), key(e)) {
      var j :| 0 <= j < |s[1..]| && s[1..][j] == e;
      assert s[j + 1] == e;
    }
  }

  /** An element at or below every element of a sorted sequence can be put in front of it. */
  lemma ConsSorted<T>(h: T, rest: seq<T>, key: T -> SortKey)
    requires SortedBy(rest, key)
    requires forall e :: e in rest ==> KeyLe(key(h), key(e))
    ensures SortedBy([h] + rest, key)
  {
    var r := [h] + rest;
    forall i, j | 0 <= i < j < |r| ensures KeyLe(key(r[i]), key(r[j])) {
      assert r[j] == rest[j - 1];
      if i > 0 {
        assert r[i] == rest[i - 1];
      }
    }
  }

  /** Puts `x` into the sorted sequence `s` before the first element whose key is larger. */
  function InsertSorted<T>(x: T, s: seq<T>, key: T -> SortKey): (r: seq<T>)
    requires SortedBy(s, key)
    ensures SortedBy(r, key)
    ensures multiset(r) == multiset(s) + multiset{x}
    ensures |r| == |s| + 1
  {
    if s == [] then [x]
    else if KeyLe(key(x), key(s[0])) then
      HeadBelowTail(s, key);
      assert s == [s[0]] + s[1..];
      ConsSorted(x, s, key);
      [x] + s
    else
      HeadBelowTail(s, key);
      var rest := InsertSorted(x, s[1..], key);
      assert s == [s[0]] + s[1..];
      assert forall e :: e in rest ==> KeyLe(key(s[0]), key(e)) by {
        forall e | e in rest ensures KeyLe(key(s[0]), key(e)) {
          assert e in multiset(rest);
          if e != x {
            assert e in multiset(s[1..]);
          }
        }
      }
      ConsSorted(s[0], rest, key);
      [s[0]] + rest
  }

  /** Insertion sort: a permutation of `s` in key order. */
  function SortBy<T>(s: seq<T>, key: T -> SortKey): (r: seq<T>)
    ensures SortedBy(r, key)
    ensures multiset(r) == multiset(s)
    ensures |r| == |s|
  {
    if s == [] then []
    else
      assert s == [s[0]] + s[1..];
      InsertSorted(s[0], SortBy(s[1..], key), key)
  }

  /** Sorting keeps exactly the elements it was given. */
  lemma SortByMembers<T>(s: seq<T>, key: T -> SortKey)
    ensures forall x :: x in SortBy(s, key) <==> x in s
  {
    var r := SortBy(s, key);
    forall x ensures x in r <==> x in s {
      assert x in r <==> x in multiset(r);
      assert x in s <==> x in multiset(s);
    }
  }
}
