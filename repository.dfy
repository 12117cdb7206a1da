// The generic repository over a table of rows (Data/Repository/Repository.cs):
// lookup by primary key, filtering, the paged query, and the in-place
// add/update/delete of rows. A table is the sequence of its rows in storage
// order; `key` gives a row's primary key (its Id).

module Repository {
  import opened Wrappers
  import opened DotNet
  import opened Sorting
  import Ledger

  /** The position of the first row whose key is `id`. */
  function IndexOf<T>(rows: seq<T>, key: T -> nat, id: nat): (r: Option<nat>)
    ensures r.Some? ==> r.value < |rows| && key(rows[r.value]) == id
    ensures r.Some? ==> forall k :: 0 <= k < r.value ==> key(rows[k]) != id
    ensures r.None? ==> forall k :: 0 <= k < |rows| ==> key(rows[k]) != id
  {
    if rows == [] then None
    else if key(rows[0]) == id then Some(0)
    else
      var rest := IndexOf(rows[1..], key, id);
      if rest.Some? then Some(rest.value + 1) else None
  }

  /** GetByIdAsync / Find: the row with that key, or null. */
  function GetById<T>(rows: seq<T>, key: T -> nat, id: nat): (r: Option<T>)
    ensures r.Some? <==> exists k :: 0 <= k < |rows| && key(rows[k]) == id
    ensures r.Some? ==> key(r.value) == id
  {
    var i := IndexOf(rows, key, id);
    if i.Some? then Some(rows[i.value]) else None
  }

  predicate UniqueKeys<T>(rows: seq<T>, key: T -> nat)
  {
    forall i, j :: 0 <= i < j < |rows| ==> key(rows[i]) != key(rows[j])
  }

  function RemoveAt<T>(rows: seq<T>, i: nat): (r: seq<T>)
    requires i < |rows|
    ensures |r| == |rows| - 1
    ensures forall k :: 0 <= k < i ==> r[k] == rows[k]
    ensures forall k :: i <= k < |r| ==> r[k] == rows[k + 1]
  {
    rows[..i] + rows[i + 1..]
  }

  /** Delete(Guid): remove the row with that key, if there is one. */
  function DeleteById<T>(rows: seq<T>, key: T -> nat, id: nat): (r: seq<T>)
    ensures |r| <= |rows| && forall x :: x in r ==> x in rows
  {
    var i := IndexOf(rows, key, id);
    if i.Some? then RemoveAt(rows, i.value) else rows
  }

  /** Deleting a key leaves no row with it behind when keys are unique, keeps
      every other row in order, and keeps keys unique; a missing key changes
      nothing. */
  lemma DeleteByIdEffect<T>(rows: seq<T>, key: T -> nat, id: nat)
    requires UniqueKeys(rows, key)
    ensures var r := DeleteById(rows, key, id);
      UniqueKeys(r, key) &&
      (forall k :: 0 <= k < |r| ==> key(r[k]) != id) &&
      (forall k :: 0 <= k < |rows| && key(rows[k]) != id ==> rows[k] in r) &&
      (forall k :: 0 <= k < |r| ==> r[k] in rows) &&
      ((forall k :: 0 <= k < |rows| ==> key(rows[k]) != id) ==> r == rows) &&
      |r| == if exists k :: 0 <= k < |rows| && key(rows[k]) == id then |rows| - 1 else |rows|
  {
    var i := IndexOf(rows, key, id);
    if i.Some? {
      var r := RemoveAt(rows, i.value);
      forall k | 0 <= k < |rows| && key(rows[k]) != id ensures rows[k] in r {
        if k < i.value { assert r[k] == rows[k]; } else { assert k != i.value; assert r[k - 1] == rows[k]; }
      }
      forall k | 0 <= k < |r| ensures r[k] in rows {
        if k < i.value { assert r[k] == rows[k]; } else { assert r[k] == rows[k + 1]; }
      }
      forall a, b | 0 <= a < b < |r| ensures key(r[a]) != key(r[b]) {
        var a' := if a < i.value then a else a + 1;
        var b' := if b < i.value then b else b + 1;
        assert r[a] == rows[a'] && r[b] == rows[b'];
      }
    }
  }

  /** LINQ Where: the rows that satisfy `p`, in their order. */
  function Where<T>(rows: seq<T>, p: T -> bool): (r: seq<T>)
    ensures |r| <= |rows|
    ensures forall k :: 0 <= k < |r| ==> p(r[k])
  {
    if rows == [] then []
    else (if p(rows[0]) then [rows[0]] else []) + Where(rows[1..], p)
  }

  /** `a` is `b` with some rows left out, the rest in their order. */
  predicate SubsequenceOf<T(==)>(a: seq<T>, b: seq<T>)
    decreases |b|
  {
    if a == [] then true
    else if b == [] then false
    else if a[0] == b[0] then SubsequenceOf(a[1..], b[1..])
    else SubsequenceOf(a, b[1..])
  }

  /** Where keeps exactly the satisfying rows, in their order. */
  lemma {:induction false} WhereMembers<T>(rows: seq<T>, p: T -> bool)
    ensures forall x :: x in Where(rows, p) <==> x in rows && p(x)
    ensures SubsequenceOf(Where(rows, p), rows)
  {
    if rows != [] {
      WhereMembers(rows[1..], p);
      assert rows == [rows[0]] + rows[1..];
      var rest := Where(rows[1..], p);
      if p(rows[0]) {
        assert Where(rows, p) == [rows[0]] + rest;
        assert (Where(rows, p))[1..] == rest;
      } else {
        assert Where(rows, p) == rest;
        SubsequenceSkip(rest, rows);
      }
    }
  }

  /** Leaving out b's first row keeps a subsequence of b's tail one of b. */
  lemma {:induction false} SubsequenceSkip<T>(a: seq<T>, b: seq<T>)
    requires b != [] && SubsequenceOf(a, b[1..])
    ensures SubsequenceOf(a, b)
    decreases |b|, 0
  {
    if a != [] && a[0] == b[0] {
      SubsequenceTail(a, b[1..]);
    }
  }

  /** Dropping the first row of a subsequence leaves a subsequence. */
  lemma {:induction false} SubsequenceTail<T>(a: seq<T>, c: seq<T>)
    requires a != [] && SubsequenceOf(a, c)
    ensures SubsequenceOf(a[1..], c)
    decreases |c|, 1
  {
    if a[0] == c[0] {
      SubsequenceSkip(a[1..], c);
    } else {
      SubsequenceTail(a, c[1..]);
      SubsequenceSkip(a[1..], c);
    }
  }

  /** A filter that keeps every row keeps the table as it is. */
  lemma {:induction false} WhereAll<T>(rows: seq<T>, p: T -> bool)
    requires forall k :: 0 <= k < |rows| ==> p(rows[k])
    ensures Where(rows, p) == rows
  {
    if rows != [] {
      WhereAll(rows[1..], p);
    }
  }

  lemma {:induction false} WhereAppend<T>(a: seq<T>, b: seq<T>, p: T -> bool)
    ensures Where(a + b, p) == Where(a, p) + Where(b, p)
  {
    if a == [] {
      assert a + b == b;
    } else {
      assert (a + b)[1..] == a[1..] + b;
      WhereAppend(a[1..], b, p);
    }
  }

  /** LINQ Any / ExistsAsync. */
  predicate Exists<T>(rows: seq<T>, p: T -> bool)
  {
    exists k :: 0 <= k < |rows| && p(rows[k])
  }

  /** LINQ FirstOrDefault(p) / FindAsync: the first row that satisfies `p`. */
  function First<T>(rows: seq<T>, p: T -> bool): (r: Option<T>)
    ensures r.Some? <==> Exists(rows, p)
    ensures r.Some? ==> p(r.value)
  {
    if rows == [] then None
    else if p(rows[0]) then Some(rows[0])
    else
      var rest := First(rows[1..], p);
      assert Exists(rows, p) ==> Exists(rows[1..], p) by {
        if Exists(rows, p) {
          var k :| 0 <= k < |rows| && p(rows[k]);
          assert k > 0 && p(rows[1..][k - 1]);
        }
      }
      assert rest.Some? ==> Exists(rows, p) by {
        if rest.Some? {
          var k :| 0 <= k < |rows[1..]| && p(rows[1..][k]);
          assert p(rows[k + 1]);
        }
      }
      rest
  }

  /** First finds the earliest row that satisfies the predicate. */
  lemma {:induction false} FirstIsEarliest<T>(rows: seq<T>, p: T -> bool)
    ensures forall i :: 0 <= i < |rows| && p(rows[i]) && (forall k :: 0 <= k < i ==> !p(rows[k])) ==>
              First(rows, p) == Some(rows[i])
  {
    if rows != [] && !p(rows[0]) {
      FirstIsEarliest(rows[1..], p);
      forall i | 0 <= i < |rows| && p(rows[i]) && (forall k :: 0 <= k < i ==> !p(rows[k]))
        ensures First(rows, p) == Some(rows[i])
      {
        assert rows[1..][i - 1] == rows[i];
        assert forall k :: 0 <= k < i - 1 ==> rows[1..][k] == rows[k + 1];
      }
    }
  }

  /** LINQ Skip(n): a non-positive count skips nothing. */
  function Skip<T>(s: seq<T>, n: int): (r: seq<T>)
    ensures r == s[if n <= 0 then 0 else if n < |s| then n else |s|..]
  {
    if n <= 0 then s else if n < |s| then s[n..] else []
  }

  /** LINQ Take(n): a non-positive count takes nothing. */
  function Take<T>(s: seq<T>, n: int): (r: seq<T>)
    ensures r == s[..if n <= 0 then 0 else if n < |s| then n else |s|]
  {
    if n <= 0 then [] else if n < |s| then s[..n] else s
  }

  /** `(int)Math.Ceiling(count / (double)pageSize)`, exact for counts below 2^53. */
  function TotalPages(count: nat, pageSize: int): (pages: nat)
    requires pageSize > 0
    ensures count == 0 <==> pages == 0
    ensures (pages - 1) * pageSize < count <= pages * pageSize || pages == 0
  {
    (count + pageSize - 1) / pageSize
  }

  datatype Paged<T> = Paged(items: seq<T>, totalCount: nat, totalPages: nat)

  /** The rows a page shows: (pageIndex - 1) * pageSize rows skipped, in
      unchecked 32-bit arithmetic, and at most pageSize taken. */
  function PageOf<T>(ordered: seq<T>, pageIndex: int, pageSize: int): (r: seq<T>)
    ensures |r| <= (if pageSize < 0 then 0 else pageSize)
    ensures forall x :: x in r ==> x in ordered
  {
    Take(Skip(ordered, Wrap32((pageIndex - 1) * pageSize)), pageSize)
  }

  /** GetPagedAsync: filter, count, order, then cut out the page. */
  function GetPaged<T>(rows: seq<T>, pageIndex: int, pageSize: int, filter: Option<T -> bool>,
                       orderBy: Option<seq<T> -> seq<T>>): (r: Paged<T>)
    requires pageSize > 0
    ensures r.totalCount == |if filter.Some? then Where(rows, filter.value) else rows|
    ensures |r.items| <= pageSize
  {
    var filtered := if filter.Some? then Where(rows, filter.value) else rows;
    var ordered := if orderBy.Some? then orderBy.value(filtered) else filtered;
    Paged(PageOf(ordered, pageIndex, pageSize), |filtered|, TotalPages(|filtered|, pageSize))
  }

  /** Without 32-bit overflow, page p holds the rows from (p-1)*size up to p*size. */
  lemma PageSlice<T>(ordered: seq<T>, pageIndex: int, pageSize: int)
    requires pageIndex >= 1 && pageSize > 0 && (pageIndex - 1) * pageSize <= Int32Max
    ensures var lo := (pageIndex - 1) * pageSize;
      PageOf(ordered, pageIndex, pageSize) ==
        ordered[(if lo < |ordered| then lo else |ordered|)..(if lo + pageSize < |ordered| then lo + pageSize else |ordered|)]
  {
    var lo := (pageIndex - 1) * pageSize;
    assert lo >= 0 by { assert pageIndex - 1 >= 0; }
    assert Wrap32(lo) == lo;
  }

  /** Update: the first row with the entity's key replaced by the entity; a
      key with no row changes nothing. */
  function Replace<T>(rows: seq<T>, key: T -> nat, entity: T): (r: seq<T>)
    ensures |r| == |rows|
  {
    var i := IndexOf(rows, key, key(entity));
    if i.Some? then rows[i.value := entity] else rows
  }

  /** After a replacement the entity is what its key finds, and every row with
      another key is as it was. */
  lemma ReplaceStores<T>(rows: seq<T>, key: T -> nat, entity: T)
    requires GetById(rows, key, key(entity)).Some?
    ensures GetById(Replace(rows, key, entity), key, key(entity)) == Some(entity)
    ensures forall k :: 0 <= k < |rows| && key(rows[k]) != key(entity) ==> Replace(rows, key, entity)[k] == rows[k]
  {
    var i := IndexOf(rows, key, key(entity)).value;
    var r := Replace(rows, key, entity);
    IndexOfFirst(r, key, key(entity), i);
  }

  lemma IndexOfFirst<T>(rows: seq<T>, key: T -> nat, id: nat, i: nat)
    requires i < |rows| && key(rows[i]) == id && forall k :: 0 <= k < i ==> key(rows[k]) != id
    ensures IndexOf(rows, key, id) == Some(i)
  {
    var r := IndexOf(rows, key, id);
    assert !(r.value < i) && !(r.value > i);
  }

  /** Replacing a row by one with the same key keeps keys unique. */
  lemma ReplaceKeepsKeys<T>(rows: seq<T>, key: T -> nat, entity: T)
    requires UniqueKeys(rows, key)
    ensures UniqueKeys(Replace(rows, key, entity), key)
  {
  }

  /** Where a page starts in the ordered rows, whatever the offset arithmetic gives. */
  function PageStart<T>(ordered: seq<T>, pageIndex: int, pageSize: int): (a: nat)
    ensures a <= |ordered|
  {
    var lo := Wrap32((pageIndex - 1) * pageSize);
    if lo <= 0 then 0 else if lo < |ordered| then lo else |ordered|
  }

  /** Every page is a contiguous run of the ordered rows. */
  lemma PageIsSlice<T>(ordered: seq<T>, pageIndex: int, pageSize: int)
    requires pageSize > 0
    ensures var a := PageStart(ordered, pageIndex, pageSize);
      var b := if pageSize < |ordered| - a then a + pageSize else |ordered|;
      PageOf(ordered, pageIndex, pageSize) == ordered[a..b]
  {
  }

  /** A page holds only rows of the ordered list, and keeps their order. */
  lemma PageWithin<T>(ordered: seq<T>, pageIndex: int, pageSize: int, key: T -> seq<int>, desc: bool)
    requires pageSize > 0
    ensures forall x :: x in PageOf(ordered, pageIndex, pageSize) ==> x in ordered
    ensures SortedBy(ordered, key, desc) ==> SortedBy(PageOf(ordered, pageIndex, pageSize), key, desc)
  {
    var a := PageStart(ordered, pageIndex, pageSize);
    var b := if pageSize < |ordered| - a then a + pageSize else |ordered|;
    PageIsSlice(ordered, pageIndex, pageSize);
    if SortedBy(ordered, key, desc) {
      SortedSlice(ordered, key, desc, a, b);
    }
  }

  /** A page past the last one is empty. */
  lemma PageBeyondLast<T>(ordered: seq<T>, pageIndex: int, pageSize: int)
    requires pageSize > 0 && pageIndex > TotalPages(|ordered|, pageSize) && (pageIndex - 1) * pageSize <= Int32Max
    ensures PageOf(ordered, pageIndex, pageSize) == []
  {
    var tp := TotalPages(|ordered|, pageSize);
    assert (pageIndex - 1) * pageSize >= tp * pageSize by {
      assert pageIndex - 1 >= tp;
      MulMonotone(tp, pageIndex - 1, pageSize);
    }
    PageSlice(ordered, pageIndex, pageSize);
  }

  lemma MulMonotone(a: nat, b: nat, c: nat)
    requires a <= b
    ensures a * c <= b * c
  {
  }

  /** Pages 1 to p laid end to end. */
  function Pages<T>(ordered: seq<T>, p: nat, pageSize: int): seq<T>
  {
    if p == 0 then [] else Pages(ordered, p - 1, pageSize) + PageOf(ordered, p, pageSize)
  }

  /** Pages 1..p hold the first p*size rows; while no offset overflows. */
  lemma {:induction false} PagesPrefix<T>(ordered: seq<T>, p: nat, pageSize: int)
    requires pageSize > 0 && p * pageSize <= Int32Max
    ensures Pages(ordered, p, pageSize) == ordered[..if p * pageSize < |ordered| then p * pageSize else |ordered|]
  {
    if p > 0 {
      var lo := (p - 1) * pageSize;
      var hi := p * pageSize;
      MulStep(p - 1, pageSize);
      assert 0 <= lo && lo + pageSize == hi;
      PagesPrefix(ordered, p - 1, pageSize);
      PageSlice(ordered, p, pageSize);
      var n := |ordered|;
      var a := if lo < n then lo else n;
      var b := if hi < n then hi else n;
      var before := Pages(ordered, p - 1, pageSize);
      var page := PageOf(ordered, p, pageSize);
      assert before == ordered[..a];
      assert page == ordered[a..b];
      assert Pages(ordered, p, pageSize) == before + page;
      PrefixSplit(ordered, a, b);
    }
  }

  lemma PrefixSplit<T>(s: seq<T>, a: nat, b: nat)
    requires a <= b <= |s|
    ensures s[..a] + s[a..b] == s[..b]
  {
  }

  lemma MulStep(q: nat, c: int)
    requires c > 0
    ensures 0 <= q * c && q * c + c == (q + 1) * c
  {
  }

  /** Reading pages 1..TotalPages in turn gives back the whole ordered list. */
  lemma AllPages<T>(ordered: seq<T>, pageSize: int)
    requires pageSize > 0 && |ordered| <= Int32Max - pageSize
    ensures Pages(ordered, TotalPages(|ordered|, pageSize), pageSize) == ordered
  {
    var tp := TotalPages(|ordered|, pageSize);
    if tp > 0 {
      assert (tp - 1) * pageSize < |ordered|;
      assert tp * pageSize == (tp - 1) * pageSize + pageSize;
    }
    PagesPrefix(ordered, tp, pageSize);
  }

  /** The key Add stores for a row: EF Core replaces a Guid key left at its
      default, Guid.Empty (0), by the value its key generator produces; a
      key that is already set is kept. */
  function StoredKey(id: nat, generated: nat): nat
  {
    if id == 0 then generated else id
  }

  /** A table as the repository object keeps it: its rows change in place. */
  class Table<T(!new)> {
    var rows: seq<T>
    const key: T -> nat
    /** Sets the key of a row, as the key generator does. */
    const withKey: (T, nat) -> T

    /** `withKey` sets exactly the key that `key` reads. */
    ghost predicate SetsKey()
    {
      forall t: T, k: nat :: key(withKey(t, k)) == k
    }

    constructor (key: T -> nat, withKey: (T, nat) -> T)
      requires forall t: T, k: nat :: key(withKey(t, k)) == k
      ensures rows == [] && this.key == key && this.withKey == withKey && SetsKey()
    {
      rows := [];
      this.key := key;
      this.withKey := withKey;
    }

    /** The row Add stores: a row left at Guid.Empty gets the generated key. */
    function Keyed(entity: T, generated: nat): T
    {
      if key(entity) == 0 then withKey(entity, generated) else entity
    }

    /** AddAsync followed by SaveAsync. A row left at Guid.Empty is stored
        under the key the generator produces, a new and non-empty Guid; a
        second row with a taken key is a primary-key violation. */
    method Add(entity: T, generated: nat) returns (r: Outcome<Ledger.Fault>)
      requires SetsKey() && generated != 0 && GetById(rows, key, generated).None?
      modifies this
      ensures key(Keyed(entity, generated)) == StoredKey(key(entity), generated)
      ensures r == (if GetById(old(rows), key, StoredKey(key(entity), generated)).Some? then Fail(Ledger.DuplicateKey) else Done)
      ensures key(entity) == 0 ==> r == Done
      ensures rows == if r.Done? then old(rows) + [Keyed(entity, generated)] else old(rows)
    {
      var stored := if key(entity) == 0 then withKey(entity, generated) else entity;
      if IndexOf(rows, key, key(stored)).Some? {
        r := Fail(Ledger.DuplicateKey);
      } else {
        rows := rows + [stored];
        r := Done;
      }
    }

    /** Update followed by SaveAsync: an entity with no stored row updates
        nothing and fails as a concurrency conflict. */
    method Update(entity: T) returns (r: Outcome<Ledger.Fault>)
      modifies this
      ensures r == (if GetById(old(rows), key, key(entity)).Some? then Done else Fail(Ledger.NotFound))
      ensures rows == Replace(old(rows), key, entity)
    {
      var i := IndexOf(rows, key, key(entity));
      if i.Some? {
        rows := rows[i.value := entity];
        r := Done;
      } else {
        r := Fail(Ledger.NotFound);
      }
    }

    /** Delete(Guid): a missing key is not an error and changes nothing. */
    method Delete(id: nat)
      modifies this
      ensures rows == DeleteById(old(rows), key, id)
    {
      var i := IndexOf(rows, key, id);
      if i.Some? {
        rows := rows[..i.value] + rows[i.value + 1..];
      }
    }
  }
}
