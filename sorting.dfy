/**
 * Ordering of query results. Every `.sort(...)` of the server and client is
 * modelled by one insertion sort parameterised by a comparison; the lemmas
 * say that the result is a permutation of the input and, for a total
 * preorder, ordered.
 */
module Sorting {
  import Common

  /** `le` is total and transitive, as every sort key of the source is. */
  ghost predicate TotalPreorder<T(!new)>(le: (T, T) -> bool)
  {
    (forall a, b :: le(a, b) || le(b, a)) &&
    (forall a, b, c :: le(a, b) && le(b, c) ==> le(a, c))
  }

  predicate SortedBy<T>(s: seq<T>, le: (T, T) -> bool)
  {
    forall i, j :: 0 <= i < j < |s| ==> le(s[i], s[j])
  }

  /** Inserts `x` before the first element it is `le`. */
  function Insert<T>(x: T, s: seq<T>, le: (T, T) -> bool): (r: seq<T>)
    ensures |r| == |s| + 1
    ensures multiset(r) == multiset{x} + multiset(s)
  {
    if s == [] then [x]
    else if le(x, s[0]) then [x] + s
    else
      var rest := Insert(x, s[1..], le);
      assert s == [s[0]] + s[1..];
      [s[0]] + rest
  }

  lemma {:induction false} InsertSorted<T(!new)>(x: T, s: seq<T>, le: (T, T) -> bool)
    requires TotalPreorder(le) && SortedBy(s, le)
    ensures SortedBy(Insert(x, s, le), le)
  {
    if s != [] && !le(x, s[0]) {
      var rest := Insert(x, s[1..], le);
      InsertSorted(x, s[1..], le);
      forall e | e in rest ensures le(s[0], e) {
        assert e in multiset(rest);
        if e != x {
          assert e in multiset(s[1..]);
          var j :| 0 <= j < |s[1..]| && s[1..][j] == e;
          assert s[j + 1] == e;
        }
      }
      var r := [s[0]] + rest;
      forall i, j | 0 <= i < j < |r| ensures le(r[i], r[j]) {
        if i == 0 { assert r[j] == rest[j - 1]; assert rest[j - 1] in rest; }
        else { assert r[i] == rest[i - 1] && r[j] == rest[j - 1]; }
      }
    } else if s != [] {
      var r := [x] + s;
      forall i, j | 0 <= i < j < |r| ensures le(r[i], r[j]) {
        if i == 0 {
          if j > 1 { assert le(x, s[0]) && le(s[0], s[j - 1]); }
        } else {
          assert r[i] == s[i - 1] && r[j] == s[j - 1];
        }
      }
    }
  }

  /** The result of `.sort(le)`. */
  function SortBy<T>(s: seq<T>, le: (T, T) -> bool): (r: seq<T>)
    ensures |r| == |s|
    ensures multiset(r) == multiset(s)
  {
    if s == [] then []
    else
      assert s == [s[0]] + s[1..];
      Insert(s[0], SortBy(s[1..], le), le)
  }

  lemma {:induction false} SortBySorted<T(!new)>(s: seq<T>, le: (T, T) -> bool)
    requires TotalPreorder(le)
    ensures SortedBy(SortBy(s, le), le)
  {
    if s != [] {
      SortBySorted(s[1..], le);
      InsertSorted(s[0], SortBy(s[1..], le), le);
    }
  }

  /** Sorting keeps exactly the elements it was given. */
  lemma SortByMembers<T>(s: seq<T>, le: (T, T) -> bool, x: T)
    ensures x in SortBy(s, le) <==> x in s
  {
    assert x in multiset(SortBy(s, le)) <==> x in multiset(s);
  }

  /** JavaScript's default string comparison: lexicographic on character codes. */
  predicate StrLe(a: string, b: string)
  {
    a == [] || (b != [] && (a[0] < b[0] || (a[0] == b[0] && StrLe(a[1..], b[1..]))))
  }

  lemma {:induction false} StrLeTotal(a: string, b: string)
    ensures StrLe(a, b) || StrLe(b, a)
  {
    if a != [] && b != [] && a[0] == b[0] {
      StrLeTotal(a[1..], b[1..]);
    }
  }

  lemma {:induction false} StrLeTransitive(a: string, b: string, c: string)
    requires StrLe(a, b) && StrLe(b, c)
    ensures StrLe(a, c)
  {
    if a != [] && a[0] == b[0] && b[0] == c[0] {
      StrLeTransitive(a[1..], b[1..], c[1..]);
    }
  }

  /** In a sorted sequence, an element beyond the first `n` comes after each of them. */
  lemma PrefixPrecedes<T>(s: seq<T>, n: nat, le: (T, T) -> bool, e: T)
    requires SortedBy(s, le) && e in s && !(e in (if |s| <= n then s else s[..n]))
    ensures n < |s|
    ensures forall x :: x in s[..n] ==> le(x, e)
  {
    var p :| 0 <= p < |s| && s[p] == e;
    forall x | x in s[..n] ensures le(x, e) {
      var q :| 0 <= q < n && s[..n][q] == x;
    }
  }

  /** The first `k` of a sorted list are sorted, drawn from it, and come before everything left out. */
  lemma TakeOfSorted<T>(s: seq<T>, k: nat, le: (T, T) -> bool)
    requires SortedBy(s, le)
    ensures SortedBy(Common.Take(s, k), le)
    ensures forall x :: x in Common.Take(s, k) ==> x in s
    ensures forall e, x :: e in s && e !in Common.Take(s, k) && x in Common.Take(s, k) ==> le(x, e)
  {
    var t := Common.Take(s, k);
    forall e, x | e in s && e !in t && x in t ensures le(x, e) {
      PrefixPrecedes(s, k, le, e);
    }
  }
}
