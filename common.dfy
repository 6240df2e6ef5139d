/**
 * Vocabulary shared by every part of the model: document ids, optional
 * values, the controllers' success-or-HTTP-error results, roles and the
 * authenticated caller, and the sequence and string helpers that the
 * queries and validations are built from.
 */
module Common {

  /** A document id. Stores allocate ids in increasing order. */
  type Id = nat

  datatype Option<T> = None | Some(value: T)

  /**
   * The error statuses the controllers answer with: 400, 401, 403, 404, and
   * 500 for an exception caught by a controller's catch-all handler.
   */
  datatype Error = BadRequest | Unauthorized | Forbidden | NotFound | InternalError

  datatype Result<T> = Ok(value: T) | Err(error: Error)
  {
    predicate IsFailure() { Err? }
  }

  datatype Role = Parent | Doctor | Admin

  /** The authenticated caller of a request. */
  datatype Actor = Actor(id: Id, role: Role)

  /** The given value, or `current` when none is given (a field an update body may omit). */
  function Pick<T>(o: Option<T>, current: T): T
  {
    if o.Some? then o.value else current
  }

  /** JavaScript's `s || fallback` on strings: only the empty string is false. */
  function OrElse(s: string, fallback: string): (r: string)
    ensures s != "" ==> r == s
    ensures s == "" ==> r == fallback
  {
    if s != "" then s else fallback
  }

  /** The keys of `m` below `n`, ascending: a store's natural (insertion) order. */
  function KeysBelow<T>(m: map<Id, T>, n: nat): seq<Id>
  {
    if n == 0 then [] else KeysBelow(m, n - 1) + (if n - 1 in m then [n - 1] else [])
  }

  /** Exactly the keys of `m` below `n` are listed. */
  lemma {:induction false} KeysBelowMembers<T>(m: map<Id, T>, n: nat)
    ensures forall k :: k in KeysBelow(m, n) <==> k in m && k < n
  {
    if n > 0 {
      KeysBelowMembers(m, n - 1);
    }
  }

  /** The keys are listed in strictly ascending order. */
  lemma {:induction false} KeysBelowAscending<T>(m: map<Id, T>, n: nat)
    ensures forall i, j :: 0 <= i < j < |KeysBelow(m, n)| ==> KeysBelow(m, n)[i] < KeysBelow(m, n)[j]
  {
    if n > 0 {
      KeysBelowAscending(m, n - 1);
      KeysBelowMembers(m, n - 1);
      var r := KeysBelow(m, n - 1);
      assert forall i :: 0 <= i < |r| ==> r[i] in r;
    }
  }

  /** The pairs of `m` at the keys `ks`, in the order of `ks`. */
  function Pairs<T>(m: map<Id, T>, ks: seq<Id>): (r: seq<(Id, T)>)
    requires forall k :: k in ks ==> k in m
    ensures |r| == |ks|
    ensures forall i :: 0 <= i < |r| ==> r[i] == (ks[i], m[ks[i]])
  {
    seq(|ks|, i requires 0 <= i < |ks| => (ks[i], m[ks[i]]))
  }

  lemma PairsMembers<T>(m: map<Id, T>, ks: seq<Id>)
    requires forall k :: k in ks ==> k in m
    ensures forall e :: e in Pairs(m, ks) <==> e.0 in ks && e.0 in m && m[e.0] == e.1
  {
    var r := Pairs(m, ks);
    forall e | e in r ensures e.0 in ks && m[e.0] == e.1 {
      var i :| 0 <= i < |r| && r[i] == e;
    }
    forall k | k in ks ensures (k, m[k]) in r {
      var i :| 0 <= i < |ks| && ks[i] == k;
      assert r[i] == (k, m[k]);
    }
  }

  /** The entries of `m` with keys below `n`, in ascending key order. */
  function Entries<T(==,!new)>(m: map<Id, T>, n: nat): (r: seq<(Id, T)>)
    ensures forall e :: e in r <==> e.0 in m && e.0 < n && m[e.0] == e.1
  {
    KeysBelowMembers(m, n);
    PairsMembers(m, KeysBelow(m, n));
    Pairs(m, KeysBelow(m, n))
  }

  /** The entries follow the listed keys, so they come in strictly ascending key order. */
  lemma EntriesKeys<T(!new)>(m: map<Id, T>, n: nat)
    ensures |Entries(m, n)| == |KeysBelow(m, n)|
    ensures forall i :: 0 <= i < |Entries(m, n)| ==> Entries(m, n)[i].0 == KeysBelow(m, n)[i]
    ensures forall i, j :: 0 <= i < j < |Entries(m, n)| ==> Entries(m, n)[i].0 < Entries(m, n)[j].0
  {
    KeysBelowMembers(m, n);
    KeysBelowAscending(m, n);
  }

  /** The elements of `s` that satisfy `p`, in their original order (`Array.prototype.filter`). */
  function Filter<T(==,!new)>(s: seq<T>, p: T -> bool): (r: seq<T>)
    ensures |r| <= |s|
    ensures forall x :: x in r <==> x in s && p(x)
    ensures IsSubsequence(r, s)
  {
    if s == [] then []
    else if p(s[0]) then [s[0]] + Filter(s[1..], p)
    else SubsequenceOfTail(Filter(s[1..], p), s); Filter(s[1..], p)
  }

  /** A filter keeps every copy of an element that passes it and no copy of one that does not. */
  lemma {:induction false} FilterMultiset<T(!new)>(s: seq<T>, p: T -> bool)
    ensures forall x :: multiset(Filter(s, p))[x] == if p(x) then multiset(s)[x] else 0
  {
    if s != [] {
      FilterMultiset(s[1..], p);
      assert s == [s[0]] + s[1..];
    }
  }

  /** `r` can be obtained from `s` by deleting elements. */
  predicate IsSubsequence<T(==)>(r: seq<T>, s: seq<T>)
    decreases |s|
  {
    if r == [] then true
    else if s == [] then false
    else if r[0] == s[0] then IsSubsequence(r[1..], s[1..])
    else IsSubsequence(r, s[1..])
  }

  lemma SubsequenceOfTail<T>(r: seq<T>, s: seq<T>)
    requires s != [] && IsSubsequence(r, s[1..])
    ensures IsSubsequence(r, s)
    decreases |s|, 0
  {
    if r != [] && r[0] == s[0] {
      SubsequenceDropHead(r, s[1..]);
    }
  }

  lemma SubsequenceDropHead<T>(r: seq<T>, t: seq<T>)
    requires r != [] && IsSubsequence(r, t)
    ensures IsSubsequence(r[1..], t)
    decreases |t|, 1
  {
    if r[0] == t[0] {
      if t[1..] != [] || r[1..] == [] {
        if r[1..] != [] { SubsequenceOfTail(r[1..], t); }
      }
    } else {
      SubsequenceDropHead(r, t[1..]);
      SubsequenceOfTail(r[1..], t);
    }
  }

  /** Nothing passes a filter that no element satisfies. */
  lemma {:induction false} FilterNone<T(!new)>(s: seq<T>, p: T -> bool)
    requires forall x :: x in s ==> !p(x)
    ensures Filter(s, p) == []
  {
    if s != [] {
      assert s[0] in s;
      FilterNone(s[1..], p);
    }
  }

  /** A count over a sequence (`filter(...).length`, `countDocuments`). */
  function Count<T(==,!new)>(s: seq<T>, p: T -> bool): nat
  {
    |Filter(s, p)|
  }

  lemma {:induction false} CountSplit<T(!new)>(s: seq<T>, p: T -> bool)
    ensures Count(s, p) + Count(s, x => !p(x)) == |s|
  {
    if s != [] {
      CountSplit(s[1..], p);
    }
  }

  /** The first `n` elements, or all of them (`slice(0, n)`, `.limit(n)`). */
  function Take<T>(s: seq<T>, n: nat): (r: seq<T>)
    ensures |r| == if |s| < n then |s| else n
    ensures r <= s
  {
    if |s| <= n then s else s[..n]
  }

  /** All but the first `n` elements (`.skip(n)`). */
  function Drop<T>(s: seq<T>, n: nat): (r: seq<T>)
    ensures |r| == if |s| < n then 0 else |s| - n
    ensures forall i :: 0 <= i < |r| ==> r[i] == s[n + i]
  {
    if |s| <= n then [] else s[n..]
  }

  /** `Array.prototype.reverse`. */
  function Reverse<T>(s: seq<T>): (r: seq<T>)
    ensures |r| == |s|
    ensures forall i :: 0 <= i < |r| ==> r[i] == s[|s| - 1 - i]
  {
    if s == [] then [] else Reverse(s[1..]) + [s[0]]
  }

  lemma ReverseMembers<T>(s: seq<T>)
    ensures forall x :: x in Reverse(s) <==> x in s
  {
    var r := Reverse(s);
    forall x | x in r ensures x in s {
      var i :| 0 <= i < |r| && r[i] == x;
      assert s[|s| - 1 - i] == x;
    }
    forall x | x in s ensures x in r {
      var i :| 0 <= i < |s| && s[i] == x;
      assert r[|s| - 1 - i] == x;
    }
  }

  /** Updating a merged map is updating its right-hand side. */
  lemma MergeUpdate<K, V>(a: map<K, V>, b: map<K, V>, k: K, x: V)
    ensures (a + b)[k := x] == a + b[k := x]
  {
  }

  function Sum(s: seq<int>): int
  {
    if s == [] then 0 else s[0] + Sum(s[1..])
  }

  lemma {:induction false} SumAppend(a: seq<int>, b: seq<int>)
    ensures Sum(a + b) == Sum(a) + Sum(b)
  {
    if a != [] {
      assert (a + b)[0] == a[0] && (a + b)[1..] == a[1..] + b;
      SumAppend(a[1..], b);
    } else {
      assert a + b == b;
    }
  }

  /**
   * The characters `String.prototype.trim` removes: the white space and line
   * terminators of ECMAScript (tab, line feed, vertical tab, form feed,
   * carriage return, the space separators of Unicode category Zs, the byte
   * order mark and the line and paragraph separators).
   */
  predicate IsSpace(c: char)
  {
    c == ' ' || c == '\t' || c == '\n' || c == '\U{000B}' || c == '\U{000C}' || c == '\r' ||
    c == '\U{00A0}' || c == '\U{1680}' || ('\U{2000}' <= c <= '\U{200A}') ||
    c == '\U{2028}' || c == '\U{2029}' || c == '\U{202F}' || c == '\U{205F}' ||
    c == '\U{3000}' || c == '\U{FEFF}'
  }

  function TrimStart(s: string): (r: string)
    ensures |r| <= |s| && r == s[|s| - |r|..]
    ensures r == [] || !IsSpace(r[0])
    ensures forall i :: 0 <= i < |s| - |r| ==> IsSpace(s[i])
  {
    if s == [] || !IsSpace(s[0]) then s else TrimStart(s[1..])
  }

  function TrimEnd(s: string): (r: string)
    ensures |r| <= |s| && r == s[..|r|]
    ensures r == [] || !IsSpace(r[|r| - 1])
    ensures forall i :: |r| <= i < |s| ==> IsSpace(s[i])
  {
    if s == [] || !IsSpace(s[|s| - 1]) then s else TrimEnd(s[..|s| - 1])
  }

  /** The character at `i`, or a space outside the string. */
  function CharAt(s: string, i: int): char
  {
    if 0 <= i < |s| then s[i] else ' '
  }

  lemma TrimEnds(s: string)
    ensures var r := TrimEnd(TrimStart(s)); r != [] ==> !IsSpace(r[0])
  {
    var t := TrimStart(s);
    var r := TrimEnd(t);
    if r != [] {
      assert r[0] == t[0];
    }
  }

  lemma TrimEmpty(s: string)
    ensures TrimEnd(TrimStart(s)) == [] <==> forall i :: 0 <= i < |s| ==> IsSpace(s[i])
  {
    var t := TrimStart(s);
    var r := TrimEnd(t);
    if r == [] {
      assert IsSpace(CharAt(t, 0));
      assert t == [];
      assert forall i :: 0 <= i < |s| ==> IsSpace(s[i]);
    } else {
      assert s[|s| - |t|] == r[0];
      assert !IsSpace(s[|s| - |t|]);
    }
  }

  /** `String.prototype.trim`. */
  function Trim(s: string): (r: string)
    ensures |r| <= |s|
    ensures r == [] || (!IsSpace(r[0]) && !IsSpace(r[|r| - 1]))
    ensures r == [] <==> forall i :: 0 <= i < |s| ==> IsSpace(s[i])
    ensures exists a, b ::
              && 0 <= a <= b <= |s| && r == s[a..b]
              && (forall i :: 0 <= i < a ==> IsSpace(s[i]))
              && (forall i :: b <= i < |s| ==> IsSpace(s[i]))
  {
    TrimEnds(s);
    TrimEmpty(s);
    TrimSlice(s);
    TrimEnd(TrimStart(s))
  }

  /** What trimming keeps is a slice of the input with only white space around it. */
  lemma TrimSlice(s: string)
    ensures exists a, b ::
              && 0 <= a <= b <= |s| && TrimEnd(TrimStart(s)) == s[a..b]
              && (forall i :: 0 <= i < a ==> IsSpace(s[i]))
              && (forall i :: b <= i < |s| ==> IsSpace(s[i]))
  {
    var t := TrimStart(s);
    var a := |s| - |t|;
    var b := TrimSliceAt(s);
    assert TrimEnd(t) == s[a..b];
  }

  /** The end of the kept slice, with the facts about both ends. */
  lemma TrimSliceAt(s: string) returns (b: nat)
    ensures |s| - |TrimStart(s)| <= b <= |s|
    ensures TrimEnd(TrimStart(s)) == s[|s| - |TrimStart(s)|..b]
    ensures forall i :: 0 <= i < |s| - |TrimStart(s)| ==> IsSpace(s[i])
    ensures forall i :: b <= i < |s| ==> IsSpace(s[i])
  {
    var t := TrimStart(s);
    var r := TrimEnd(t);
    var a := |s| - |t|;
    b := a + |r|;
    assert t == s[a..];
    assert r == t[..|r|];
    forall i | b <= i < |s| ensures IsSpace(s[i]) {
      assert s[i] == t[i - a];
    }
  }

  /** A string JavaScript treats as false (only the empty one). */
  predicate Truthy(s: string)
  {
    s != ""
  }

  /** Blank after trimming: `!s || !s.trim()`. */
  predicate IsBlank(s: string)
  {
    Trim(s) == ""
  }

  lemma TrimIdempotent(s: string)
    ensures Trim(Trim(s)) == Trim(s)
  {
    var t := Trim(s);
    if t != [] {
      assert TrimStart(t) == t;
      assert TrimEnd(t) == t;
    }
  }

  // ------------------------------------------------------------- decimals

  predicate IsDigit(c: char)
  {
    '0' <= c <= '9'
  }

  function DigitChar(d: nat): (c: char)
    requires d < 10
    ensures IsDigit(c) && c as int - '0' as int == d
  {
    (d + '0' as int) as char
  }

  /** The decimal rendering of a number, as template strings and `String(n)` write it. */
  function NatToString(k: nat): (r: string)
    ensures |r| >= 1
    ensures forall i :: 0 <= i < |r| ==> IsDigit(r[i])
  {
    if k < 10 then [DigitChar(k)] else NatToString(k / 10) + [DigitChar(k % 10)]
  }

  /** The value of a string of decimal digits. */
  function DigitsValue(s: string): nat
    requires forall i :: 0 <= i < |s| ==> IsDigit(s[i])
  {
    if s == [] then 0
    else
      assert IsDigit(s[|s| - 1]);
      DigitsValue(s[..|s| - 1]) * 10 + (s[|s| - 1] as int - '0' as int)
  }

  /** Reading the digits back gives the number: the rendering loses nothing. */
  lemma {:induction false} NatToStringRoundTrip(k: nat)
    ensures DigitsValue(NatToString(k)) == k
  {
    if k >= 10 {
      var s := NatToString(k);
      NatToStringRoundTrip(k / 10);
      assert s[..|s| - 1] == NatToString(k / 10);
    }
  }

  /** Different numbers render differently. */
  lemma NatToStringInjective(a: nat, b: nat)
    requires NatToString(a) == NatToString(b)
    ensures a == b
  {
    NatToStringRoundTrip(a);
    NatToStringRoundTrip(b);
  }

  /** `n.toString().padStart(2, '0')` for a number below 100. */
  function Pad2(n: nat): (r: string)
    requires n < 100
    ensures |r| == 2 && IsDigit(r[0]) && IsDigit(r[1])
    ensures r[0] as int - '0' as int == n / 10 && r[1] as int - '0' as int == n % 10
  {
    [DigitChar(n / 10), DigitChar(n % 10)]
  }

  /** Padding loses nothing: the two digits read back as the number. */
  lemma Pad2RoundTrip(n: nat)
    requires n < 100
    ensures DigitsValue(Pad2(n)) == n
  {
    var r := Pad2(n);
    assert r[..1] == [r[0]];
    assert DigitsValue(r[..1]) == n / 10;
  }

  // ------------------------------------------------------------- distinct elements

  predicate NoDuplicates<T(==)>(s: seq<T>)
  {
    forall i, j :: 0 <= i < j < |s| ==> s[i] != s[j]
  }

  /** A filter of a list without duplicates has none either. */
  lemma {:induction false} FilterNoDuplicates<T(!new)>(s: seq<T>, p: T -> bool)
    requires NoDuplicates(s)
    ensures NoDuplicates(Filter(s, p))
  {
    if s != [] {
      assert NoDuplicates(s[1..]) by {
        forall i, j | 0 <= i < j < |s[1..]| ensures s[1..][i] != s[1..][j] {
          assert s[1..][i] == s[i + 1] && s[1..][j] == s[j + 1];
        }
      }
      FilterNoDuplicates(s[1..], p);
      if p(s[0]) {
        var t := Filter(s[1..], p);
        assert s[0] !in s[1..] by {
          forall k | 0 <= k < |s[1..]| ensures s[1..][k] != s[0] {
            assert s[1..][k] == s[k + 1];
          }
        }
        assert s[0] !in t;
        var r := [s[0]] + t;
        forall i, j | 0 <= i < j < |r| ensures r[i] != r[j] {
          if i == 0 {
            assert r[j] == t[j - 1] && t[j - 1] in t;
          } else {
            assert r[i] == t[i - 1] && r[j] == t[j - 1];
          }
        }
      }
    }
  }

  /** A filter every element passes keeps the list as it is. */
  lemma {:induction false} FilterAll<T(!new)>(s: seq<T>, p: T -> bool)
    requires forall x :: x in s ==> p(x)
    ensures Filter(s, p) == s
  {
    if s != [] {
      assert s[0] in s;
      assert forall x :: x in s[1..] ==> x in s;
      FilterAll(s[1..], p);
      assert [s[0]] + s[1..] == s;
    }
  }

  /** Filtering a list with one more element at the end. */
  lemma {:induction false} FilterAppend<T(!new)>(s: seq<T>, x: T, p: T -> bool)
    ensures Filter(s + [x], p) == Filter(s, p) + (if p(x) then [x] else [])
  {
    if s == [] {
      assert [] + [x] == [x];
      assert [x][1..] == [];
    } else {
      assert (s + [x])[0] == s[0];
      assert (s + [x])[1..] == s[1..] + [x];
      FilterAppend(s[1..], x, p);
    }
  }
}