// Ordering of query results (LINQ OrderBy / OrderByDescending / ThenBy).
// A sort key is a sequence of integers compared lexicographically, which
// covers ordinal string keys and (date, time) pairs alike.

module Sorting {
  import opened Wrappers

  /** Lexicographic order on keys; a proper prefix sorts first. */
  predicate KeyLe(a: seq<int>, b: seq<int>)
    decreases |a|
  {
    if a == [] then true
    else if b == [] then false
    else if a[0] != b[0] then a[0] < b[0]
    else KeyLe(a[1..], b[1..])
  }

  lemma {:induction false} KeyLeTotal(a: seq<int>, b: seq<int>)
    ensures KeyLe(a, b) || KeyLe(b, a)
    decreases |a|
  {
    if a != [] && b != [] && a[0] == b[0] { KeyLeTotal(a[1..], b[1..]); }
  }

  lemma {:induction false} KeyLeTrans(a: seq<int>, b: seq<int>, c: seq<int>)
    requires KeyLe(a, b) && KeyLe(b, c)
    ensures KeyLe(a, c)
    decreases |a|
  {
    if a != [] && b != [] && c != [] && a[0] == b[0] && b[0] == c[0] {
      KeyLeTrans(a[1..], b[1..], c[1..]);
    }
  }

  /** The ordinal sort key of a string: its characters' code points in order. */
  function StringKey(s: string): (k: seq<int>)
    ensures |k| == |s| && forall i :: 0 <= i < |s| ==> k[i] == s[i] as int
  {
    if s == [] then [] else [s[0] as int] + StringKey(s[1..])
  }

  /** `a` may stand before `b` in ascending (or, with `desc`, descending) order. */
  predicate InOrder(desc: bool, a: seq<int>, b: seq<int>)
  {
    if desc then KeyLe(b, a) else KeyLe(a, b)
  }

  lemma InOrderTotal(desc: bool, a: seq<int>, b: seq<int>)
    ensures InOrder(desc, a, b) || InOrder(desc, b, a)
  {
    KeyLeTotal(a, b);
  }

  lemma InOrderTrans(desc: bool, a: seq<int>, b: seq<int>, c: seq<int>)
    requires InOrder(desc, a, b) && InOrder(desc, b, c)
    ensures InOrder(desc, a, c)
  {
    if desc { KeyLeTrans(c, b, a); } else { KeyLeTrans(a, b, c); }
  }

  predicate SortedBy<T>(s: seq<T>, key: T -> seq<int>, desc: bool)
  {
    forall i, j :: 0 <= i < j < |s| ==> InOrder(desc, key(s[i]), key(s[j]))
  }

  function Insert<T>(x: T, s: seq<T>, key: T -> seq<int>, desc: bool): (r: seq<T>)
    requires SortedBy(s, key, desc)
    ensures multiset(r) == multiset(s) + multiset{x} && |r| == |s| + 1
    ensures SortedBy(r, key, desc)
  {
    if s == [] then [x]
    else if InOrder(desc, key(x), key(s[0])) then
      assert forall j :: 0 <= j < |s| ==> InOrder(desc, key(x), key(s[j])) by {
        forall j | 0 <= j < |s| ensures InOrder(desc, key(x), key(s[j])) {
          if j > 0 { InOrderTrans(desc, key(x), key(s[0]), key(s[j])); }
        }
      }
      [x] + s
    else
      InOrderTotal(desc, key(x), key(s[0]));
      var rest := Insert(x, s[1..], key, desc);
      assert s == [s[0]] + s[1..];
      assert forall j :: 0 <= j < |rest| ==> InOrder(desc, key(s[0]), key(rest[j])) by {
        forall j | 0 <= j < |rest| ensures InOrder(desc, key(s[0]), key(rest[j])) {
          assert rest[j] in multiset(rest);
          assert rest[j] == x || rest[j] in multiset(s[1..]);
          if rest[j] != x {
            var k :| 0 <= k < |s[1..]| && s[1..][k] == rest[j];
            assert s[k + 1] == rest[j];
          }
        }
      }
      [s[0]] + rest
  }

  /** `OrderBy(key)` / `OrderByDescending(key)`: a sorted permutation of `s`. */
  function SortBy<T>(s: seq<T>, key: T -> seq<int>, desc: bool): (r: seq<T>)
    ensures multiset(r) == multiset(s) && |r| == |s|
    ensures SortedBy(r, key, desc)
  {
    if s == [] then []
    else
      assert s == [s[0]] + s[1..];
      Insert(s[0], SortBy(s[1..], key, desc), key, desc)
  }

  /** Ordinal string order. */
  predicate StrLe(a: string, b: string) { KeyLe(StringKey(a), StringKey(b)) }

  lemma {:induction false} KeyLeAntisymmetric(a: seq<int>, b: seq<int>)
    requires KeyLe(a, b) && KeyLe(b, a)
    ensures a == b
    decreases |a|
  {
    if a != [] {
      KeyLeAntisymmetric(a[1..], b[1..]);
      assert a == [a[0]] + a[1..] && b == [b[0]] + b[1..];
    }
  }

  lemma {:induction false} StringKeyInjective(a: string, b: string)
    requires StringKey(a) == StringKey(b)
    ensures a == b
  {
    assert |a| == |b|;
    forall i | 0 <= i < |a| ensures a[i] == b[i] {
      assert StringKey(a)[i] == StringKey(b)[i];
    }
  }

  /** Keys that agree before index i are ordered by their i-th element. */
  lemma {:induction false} KeyLeAt(a: seq<int>, b: seq<int>, i: nat)
    requires i < |a| && i < |b| && a[..i] == b[..i] && a[i] > b[i]
    ensures !KeyLe(a, b)
    decreases i
  {
    if i > 0 {
      assert a[0] == a[..i][0] && b[0] == b[..i][0];
      assert a[1..][..i - 1] == a[..i][1..] && b[1..][..i - 1] == b[..i][1..];
      KeyLeAt(a[1..], b[1..], i - 1);
    }
  }

  /** Strings that agree before index i are ordered by their i-th character. */
  lemma StrLeAt(x: string, y: string, i: nat)
    requires i < |x| && i < |y| && x[..i] == y[..i] && x[i] > y[i]
    ensures !StrLe(x, y)
  {
    var a := StringKey(x);
    var b := StringKey(y);
    forall k | 0 <= k < i ensures a[k] == b[k] {
      assert x[k] == x[..i][k] && y[k] == y[..i][k];
    }
    assert a[..i] == b[..i];
    KeyLeAt(a, b, i);
  }

  /** The greatest string in ordinal order: what OrderByDescending(s => s)
      followed by FirstOrDefault yields. Ordinal order is total and
      antisymmetric, so the greatest string is one value. */
  function MaxString(s: seq<string>): (r: Option<string>)
    ensures r.None? <==> s == []
    ensures r.Some? ==> r.value in s && forall k :: 0 <= k < |s| ==> StrLe(s[k], r.value)
  {
    if s == [] then None
    else
      var rest := MaxString(s[1..]);
      if rest.None? then
        KeyLeReflexive(StringKey(s[0]));
        Some(s[0])
      else if StrLe(s[0], rest.value) then
        rest
      else
        KeyLeTotal(StringKey(s[0]), StringKey(rest.value));
        assert forall k :: 1 <= k < |s| ==> StrLe(s[k], s[0]) by {
          forall k | 1 <= k < |s| ensures StrLe(s[k], s[0]) {
            assert s[k] == s[1..][k - 1];
            KeyLeTrans(StringKey(s[k]), StringKey(rest.value), StringKey(s[0]));
          }
        }
        KeyLeReflexive(StringKey(s[0]));
        Some(s[0])
  }

  lemma {:induction false} KeyLeReflexive(a: seq<int>)
    ensures KeyLe(a, a)
    decreases |a|
  {
    if a != [] { KeyLeReflexive(a[1..]); }
  }

  /** Any slice of a sorted sequence is sorted. */
  lemma SortedSlice<T>(s: seq<T>, key: T -> seq<int>, desc: bool, lo: nat, hi: nat)
    requires SortedBy(s, key, desc) && lo <= hi <= |s|
    ensures SortedBy(s[lo..hi], key, desc)
  {
    forall i, j | 0 <= i < j < hi - lo ensures InOrder(desc, key(s[lo..hi][i]), key(s[lo..hi][j])) {
      assert s[lo..hi][i] == s[lo + i] && s[lo..hi][j] == s[lo + j];
    }
  }

  /** Sorting keeps exactly the elements it was given. */
  lemma SortByMembers<T>(s: seq<T>, key: T -> seq<int>, desc: bool)
    ensures forall x :: x in SortBy(s, key, desc) <==> x in s
  {
    var r := SortBy(s, key, desc);
    forall x ensures x in r <==> x in s {
      assert x in multiset(r) <==> x in multiset(s);
    }
  }
}
