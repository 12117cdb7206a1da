// What the master-data services (cost centers, the chart of accounts, tax
// rates, clients and vendors) have in common: the level a row gets from its
// parent, the code-uniqueness query, the optional isActive filter, and the
// account/cost-center link table whose rows are (account, cost center) pairs
// with the pair as primary key.

module Catalog {
  import opened Wrappers
  import opened Ledger
  import opened Repository

  // ---------------------------------------------------------------------------
  // Levels
  // ---------------------------------------------------------------------------

  /** The Level a create or update assigns: one more than the parent's when
      the parent id finds a row, 1 without a parent, and the row's own level
      when the parent id finds nothing. */
  function LevelFor<T>(rows: seq<T>, key: T -> nat, levelOf: T -> int, parentId: Option<Guid>, level: int): (r: int)
    ensures parentId.None? ==> r == 1
    ensures parentId.Some? && GetById(rows, key, parentId.value).Some? ==> r == levelOf(GetById(rows, key, parentId.value).value) + 1
    ensures parentId.Some? && GetById(rows, key, parentId.value).None? ==> r == level
  {
    if parentId.None? then 1
    else
      var parent := GetById(rows, key, parentId.value);
      if parent.Some? then levelOf(parent.value) + 1 else level
  }

  /** Every row has the level the service would assign it now. */
  predicate LevelsConsistent<T>(rows: seq<T>, key: T -> nat, parentOf: T -> Option<Guid>, levelOf: T -> int)
  {
    forall k :: 0 <= k < |rows| ==> levelOf(rows[k]) == LevelFor(rows, key, levelOf, parentOf(rows[k]), levelOf(rows[k]))
  }

  /** Appending a row leaves the lookups of the other keys as they were. */
  lemma {:induction false} GetByIdAppend<T>(rows: seq<T>, key: T -> nat, x: T, id: nat)
    ensures GetById(rows + [x], key, id) ==
            if GetById(rows, key, id).Some? then GetById(rows, key, id) else if key(x) == id then Some(x) else None
  {
    if rows == [] {
      assert rows + [x] == [x];
    } else {
      assert (rows + [x])[1..] == rows[1..] + [x];
      GetByIdAppend(rows[1..], key, x, id);
    }
  }

  /** Adding a row with a fresh key, whose level was assigned against the
      table and which no stored row names as parent, keeps levels consistent. */
  lemma LevelsAppend<T>(rows: seq<T>, key: T -> nat, parentOf: T -> Option<Guid>, levelOf: T -> int, n: T, level: int)
    requires LevelsConsistent(rows, key, parentOf, levelOf)
    requires GetById(rows, key, key(n)).None? && parentOf(n) != Some(key(n))
    requires forall k :: 0 <= k < |rows| ==> parentOf(rows[k]) != Some(key(n))
    requires levelOf(n) == LevelFor(rows, key, levelOf, parentOf(n), level)
    ensures LevelsConsistent(rows + [n], key, parentOf, levelOf)
  {
    var all := rows + [n];
    forall k | 0 <= k < |all|
      ensures levelOf(all[k]) == LevelFor(all, key, levelOf, parentOf(all[k]), levelOf(all[k]))
    {
      var p := parentOf(all[k]);
      if p.Some? {
        GetByIdAppend(rows, key, n, p.value);
      }
    }
  }

  // ---------------------------------------------------------------------------
  // Codes and the isActive filter
  // ---------------------------------------------------------------------------

  function HasCode<T>(code: T -> string, c: string): T -> bool
  {
    (x: T) => code(x) == c
  }

  /** Is*CodeUniqueAsync: no row has the code, or the first row that has it is
      the one whose id was supplied. */
  function CodeIsUnique<T>(rows: seq<T>, key: T -> nat, code: T -> string, c: string, id: Option<Guid>): (r: bool)
    ensures (forall k :: 0 <= k < |rows| ==> code(rows[k]) != c) ==> r
    ensures id.None? ==> (r <==> forall k :: 0 <= k < |rows| ==> code(rows[k]) != c)
  {
    var holder := First(rows, HasCode(code, c));
    assert holder.None? <==> forall k :: 0 <= k < |rows| ==> code(rows[k]) != c by {
      if holder.Some? {
        var k :| 0 <= k < |rows| && HasCode(code, c)(rows[k]);
      }
    }
    holder.None? || (id.Some? && key(holder.value) == id.value)
  }

  /** No two rows share a code. */
  predicate DistinctCodes<T>(rows: seq<T>, code: T -> string)
  {
    forall i, j :: 0 <= i < j < |rows| ==> code(rows[i]) != code(rows[j])
  }

  /** With distinct codes the answer is exact: the code is free for `id`
      exactly when every row holding it is the row with that id. */
  lemma CodeUniqueExactly<T>(rows: seq<T>, key: T -> nat, code: T -> string, c: string, id: Option<Guid>)
    requires DistinctCodes(rows, code)
    ensures CodeIsUnique(rows, key, code, c, id) <==>
            forall k :: 0 <= k < |rows| && code(rows[k]) == c ==> id == Some(key(rows[k]))
  {
    FirstIsEarliest(rows, HasCode(code, c));
    forall k | 0 <= k < |rows| && code(rows[k]) == c
      ensures First(rows, HasCode(code, c)) == Some(rows[k])
    {
      assert forall j :: 0 <= j < k ==> !HasCode(code, c)(rows[j]);
    }
  }

  function IsActiveIs<T>(active: T -> bool, isActive: bool): T -> bool
  {
    (x: T) => active(x) == isActive
  }

  /** The optional isActive filter of the Get*Async queries. */
  function ByActive<T(!new)>(rows: seq<T>, active: T -> bool, isActive: Option<bool>): (r: seq<T>)
    ensures isActive.None? ==> r == rows
    ensures forall x :: x in r <==> x in rows && (isActive.None? || active(x) == isActive.value)
    ensures SubsequenceOf(r, rows)
  {
    if isActive.None? then
      SubsequenceSelf(rows);
      rows
    else
      WhereMembers(rows, IsActiveIs(active, isActive.value));
      Where(rows, IsActiveIs(active, isActive.value))
  }

  lemma {:induction false} SubsequenceSelf<T>(s: seq<T>)
    ensures SubsequenceOf(s, s)
  {
    if s != [] {
      SubsequenceSelf(s[1..]);
    }
  }

  /** A filter and its negation split the rows between them. */
  lemma {:induction false} WherePartition<T>(rows: seq<T>, p: T -> bool, q: T -> bool)
    requires forall x :: q(x) == !p(x)
    ensures multiset(Where(rows, p)) + multiset(Where(rows, q)) == multiset(rows)
  {
    if rows != [] {
      WherePartition(rows[1..], p, q);
      var head := if p(rows[0]) then [rows[0]] else [];
      var other := if q(rows[0]) then [rows[0]] else [];
      assert multiset(head) + multiset(other) == multiset{rows[0]};
      assert rows == [rows[0]] + rows[1..];
      PartitionStep(rows[0], rows[1..], head, other, Where(rows[1..], p), Where(rows[1..], q));
    }
  }

  lemma PartitionStep<T>(x: T, rest: seq<T>, head: seq<T>, other: seq<T>, a: seq<T>, b: seq<T>)
    requires multiset(head) + multiset(other) == multiset{x}
    requires multiset(a) + multiset(b) == multiset(rest)
    ensures multiset(head + a) + multiset(other + b) == multiset([x] + rest)
  {
  }

  /** Filters that agree on every row keep the same rows. */
  lemma {:induction false} WhereSame<T>(rows: seq<T>, p: T -> bool, q: T -> bool)
    requires forall x :: p(x) == q(x)
    ensures Where(rows, p) == Where(rows, q)
  {
    if rows != [] {
      WhereSame(rows[1..], p, q);
    }
  }

  function Both<T>(p: T -> bool, q: T -> bool): T -> bool
  {
    (x: T) => p(x) && q(x)
  }

  /** Two Where calls in a row are one Where on the conjunction. */
  lemma {:induction false} WhereWhere<T>(rows: seq<T>, p: T -> bool, q: T -> bool)
    ensures Where(Where(rows, p), q) == Where(rows, Both(p, q))
  {
    if rows != [] {
      WhereWhere(rows[1..], p, q);
      var head := if p(rows[0]) then [rows[0]] else [];
      assert Where(rows, p) == head + Where(rows[1..], p);
      WhereAppend(head, Where(rows[1..], p), q);
      assert Where(head, q) == if Both(p, q)(rows[0]) then [rows[0]] else [];
    }
  }

  // ---------------------------------------------------------------------------
  // The account/cost-center link table
  // ---------------------------------------------------------------------------

  /** Each (account, cost center) pair is stored at most once. */
  predicate PairsDistinct(links: seq<AccountCostCenter>)
  {
    forall i, j :: 0 <= i < j < |links| ==> links[i] != links[j]
  }

  /** Add*Async: the pair is stored unless it already is. */
  function AddLink(links: seq<AccountCostCenter>, link: AccountCostCenter): (r: seq<AccountCostCenter>)
    ensures link in r && forall x :: x in r <==> x in links || x == link
    ensures link in links ==> r == links
    ensures PairsDistinct(links) ==> PairsDistinct(r)
  {
    if link in links then links else links + [link]
  }

  /** Adding a link twice is adding it once. */
  lemma AddLinkIdempotent(links: seq<AccountCostCenter>, link: AccountCostCenter)
    ensures AddLink(AddLink(links, link), link) == AddLink(links, link)
  {
  }

  /** Removing a link just added to a table without it gives the table back. */
  lemma {:induction false} AddThenRemove(links: seq<AccountCostCenter>, link: AccountCostCenter)
    requires link !in links
    ensures RemoveLink(AddLink(links, link), link) == links
  {
    if links != [] {
      assert (links + [link])[1..] == links[1..] + [link];
      AddThenRemove(links[1..], link);
    }
  }

  /** The rows without the first one equal to `x`. */
  function Without(links: seq<AccountCostCenter>, x: AccountCostCenter): (r: seq<AccountCostCenter>)
    ensures x !in links ==> r == links
    ensures x in links ==> |r| == |links| - 1
    ensures forall y :: y in r ==> y in links
    ensures forall y :: y in links && y != x ==> y in r
    ensures multiset(r) == multiset(links) - multiset{x}
  {
    if links == [] then []
    else if links[0] == x then
      assert links == [x] + links[1..];
      links[1..]
    else
      assert links == [links[0]] + links[1..];
      [links[0]] + Without(links[1..], x)
  }

  /** Remove*Async: the stored pair is deleted; an absent pair changes nothing. */
  function RemoveLink(links: seq<AccountCostCenter>, link: AccountCostCenter): (r: seq<AccountCostCenter>)
    ensures link !in links ==> r == links
    ensures PairsDistinct(links) ==> PairsDistinct(r) && forall x :: x in r <==> x in links && x != link
  {
    if PairsDistinct(links) then
      DistinctWithout(links, link);
      Without(links, link)
    else Without(links, link)
  }

  lemma {:induction false} DistinctWithout(links: seq<AccountCostCenter>, x: AccountCostCenter)
    requires PairsDistinct(links)
    ensures PairsDistinct(Without(links, x)) && x !in Without(links, x)
  {
    if links != [] {
      assert PairsDistinct(links[1..]) && links[0] !in links[1..];
      if links[0] != x {
        DistinctWithout(links[1..], x);
      }
    }
  }

  function OfCenter(cc: Guid): AccountCostCenter -> bool
  {
    (l: AccountCostCenter) => l.costCenterId == cc
  }

  function AccountOf(l: AccountCostCenter): Guid { l.accountId }

  /** GetCostCenterAccountsAsync, as account ids: the accounts linked to the cost center. */
  function CenterAccounts(links: seq<AccountCostCenter>, cc: Guid): (ids: seq<Guid>)
    ensures forall a :: a in ids <==> AccountCostCenter(a, cc) in links
  {
    var rows := Where(links, OfCenter(cc));
    WhereMembers(links, OfCenter(cc));
    var ids := seq(|rows|, k requires 0 <= k < |rows| => rows[k].accountId);
    assert forall a :: a in ids ==> AccountCostCenter(a, cc) in links by {
      forall a | a in ids ensures AccountCostCenter(a, cc) in links {
        var k :| 0 <= k < |ids| && ids[k] == a;
        assert rows[k] in rows;
      }
    }
    assert forall a :: AccountCostCenter(a, cc) in links ==> a in ids by {
      forall a | AccountCostCenter(a, cc) in links ensures a in ids {
        var link := AccountCostCenter(a, cc);
        assert link in rows;
        var k :| 0 <= k < |rows| && rows[k] == link;
        assert ids[k] == a;
      }
    }
    ids
  }

  /** GetAccountCostCentersAsync, as cost-center ids: the cost centers linked to the account. */
  function AccountCenters(links: seq<AccountCostCenter>, accountId: Guid): (ids: seq<Guid>)
    ensures forall c :: c in ids <==> AccountCostCenter(accountId, c) in links
  {
    if links == [] then []
    else (if links[0].accountId == accountId then [links[0].costCenterId] else []) + AccountCenters(links[1..], accountId)
  }
}
