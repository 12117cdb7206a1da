// The cost-center service (Areas/Accounting/Services/CostCenterService.cs):
// level assignment on create and update, code uniqueness, the delete guard,
// the account links of a cost center, the assign-accounts page and the
// assignment that makes a cost center's links equal a chosen set.

module CostCenters {
  import opened Wrappers
  import opened Ledger
  import opened Repository
  import opened Catalog

  function CenterId(c: CostCenter): nat { c.id }
  function CenterLevel(c: CostCenter): int { c.level }
  function CenterParent(c: CostCenter): Option<Guid> { c.parentId }
  function CenterCode(c: CostCenter): string { c.code }
  function CenterActive(c: CostCenter): bool { c.isActive }

  /** The cost center as Create and Update leave it: only its Level changes,
      to one more than its parent's, to 1 without a parent, and not at all
      when the parent id finds no cost center. */
  function WithLevel(centers: seq<CostCenter>, c: CostCenter): (r: CostCenter)
    ensures r == c.(level := r.level)
    ensures c.parentId.None? ==> r.level == 1
    ensures c.parentId.Some? && GetById(centers, CenterId, c.parentId.value).Some? ==>
              r.level == GetById(centers, CenterId, c.parentId.value).value.level + 1
    ensures c.parentId.Some? && GetById(centers, CenterId, c.parentId.value).None? ==> r == c
  {
    c.(level := LevelFor(centers, CenterId, CenterLevel, c.parentId, c.level))
  }

  /** Every stored cost center has the level the service would assign it. */
  predicate Levelled(centers: seq<CostCenter>)
  {
    LevelsConsistent(centers, CenterId, CenterParent, CenterLevel)
  }

  /** Creating a cost center under a fresh id that no stored row names as its
      parent keeps every level consistent. */
  lemma CreationKeepsLevels(centers: seq<CostCenter>, c: CostCenter)
    requires Levelled(centers) && GetById(centers, CenterId, c.id).None? && c.parentId != Some(c.id)
    requires forall k :: 0 <= k < |centers| ==> centers[k].parentId != Some(c.id)
    ensures Levelled(centers + [WithLevel(centers, c)])
  {
    LevelsAppend(centers, CenterId, CenterParent, CenterLevel, WithLevel(centers, c), c.level);
  }

  /** Update recomputes only the updated row: moving a parent under another
      cost center leaves its children at their old level. */
  lemma UpdateStrandsChildren(root: CostCenter, other: CostCenter, child: CostCenter)
    requires root.id == 1 && root.parentId == None && root.level == 1
    requires other.id == 2 && other.parentId == None && other.level == 1
    requires child.id == 3 && child.parentId == Some(1) && child.level == 2
    ensures Levelled([root, other, child])
    ensures var moved := root.(parentId := Some(2));
      !Levelled(Replace([root, other, child], CenterId, WithLevel([root, other, child], moved)))
  {
    var before := [root, other, child];
    assert before[1..] == [other, child];
    IndexOfFirst(before, CenterId, 1, 0);
    IndexOfFirst(before, CenterId, 2, 1);
    var moved := WithLevel(before, root.(parentId := Some(2)));
    var after := Replace(before, CenterId, moved);
    assert after == [moved, other, child];
    IndexOfFirst(after, CenterId, 1, 0);
    assert moved.level == 2;
    assert after[2].level != LevelFor(after, CenterId, CenterLevel, after[2].parentId, after[2].level);
  }

  /** IsCostCenterCodeUniqueAsync. */
  function IsCodeUnique(centers: seq<CostCenter>, code: string, id: Option<Guid>): (r: bool)
    ensures id.None? ==> (r <==> forall k :: 0 <= k < |centers| ==> centers[k].code != code)
    ensures DistinctCodes(centers, CenterCode) ==>
              (r <==> forall k :: 0 <= k < |centers| && centers[k].code == code ==> id == Some(centers[k].id))
  {
    CodeUniqueExactlyIfDistinct(centers, code, id);
    CodeIsUnique(centers, CenterId, CenterCode, code, id)
  }

  lemma CodeUniqueExactlyIfDistinct(centers: seq<CostCenter>, code: string, id: Option<Guid>)
    ensures DistinctCodes(centers, CenterCode) ==>
              (CodeIsUnique(centers, CenterId, CenterCode, code, id) <==>
               forall k :: 0 <= k < |centers| && centers[k].code == code ==> id == Some(centers[k].id))
  {
    if DistinctCodes(centers, CenterCode) {
      CodeUniqueExactly(centers, CenterId, CenterCode, code, id);
    }
  }

  /** CanDeleteCostCenterAsync: no journal line names the cost center, and it
      has no children; a cost center that is not stored has none. */
  function CanDelete(centers: seq<CostCenter>, lines: seq<JournalLine>, id: Guid): (r: bool)
    ensures r <==> (forall k :: 0 <= k < |lines| ==> lines[k].costCenterId != Some(id)) &&
                   (GetById(centers, CenterId, id).None? || forall k :: 0 <= k < |centers| ==> centers[k].parentId != Some(id))
  {
    !(exists k :: 0 <= k < |lines| && lines[k].costCenterId == Some(id)) &&
    (GetById(centers, CenterId, id).None? || !(exists k :: 0 <= k < |centers| && centers[k].parentId == Some(id)))
  }

  /** Deleting a stored cost center the guard allows leaves no cost center
      whose parent is gone and no journal line naming it. */
  lemma DeletionLeavesNoOrphans(centers: seq<CostCenter>, lines: seq<JournalLine>, id: Guid)
    requires UniqueKeys(centers, CenterId) && GetById(centers, CenterId, id).Some? && CanDelete(centers, lines, id)
    ensures var r := DeleteById(centers, CenterId, id);
      |r| == |centers| - 1 && GetById(r, CenterId, id).None? &&
      (forall k :: 0 <= k < |r| ==> r[k].parentId != Some(id)) &&
      (forall k :: 0 <= k < |lines| ==> lines[k].costCenterId != Some(id))
  {
    DeleteByIdEffect(centers, CenterId, id);
    var r := DeleteById(centers, CenterId, id);
    forall k | 0 <= k < |r| ensures r[k].parentId != Some(id) {
      assert r[k] in centers;
    }
  }

  /** GetCostCentersAsync. */
  function CostCentersWhere(centers: seq<CostCenter>, isActive: Option<bool>): (r: seq<CostCenter>)
    ensures isActive.None? ==> r == centers
    ensures forall c :: c in r <==> c in centers && (isActive.None? || c.isActive == isActive.value)
    ensures SubsequenceOf(r, centers)
  {
    ByActive(centers, CenterActive, isActive)
  }

  // ---------------------------------------------------------------------------
  // The assign-accounts page
  // ---------------------------------------------------------------------------

  datatype SelectItem = SelectItem(value: Guid, text: string)

  datatype AssignAccountsVm = AssignAccountsVm(
    costCenterId: Guid,
    availableAccounts: seq<SelectItem>,
    assignedAccounts: seq<SelectItem>,
    selectedIds: seq<Guid>)

  /** The list item of an account: its id and "code - name". */
  function AccountItem(a: Account): SelectItem { SelectItem(a.id, a.code + " - " + a.nameEn) }

  function Items(accounts: seq<Account>): (r: seq<SelectItem>)
    ensures |r| == |accounts| && forall k :: 0 <= k < |accounts| ==> r[k] == AccountItem(accounts[k])
  {
    seq(|accounts|, k requires 0 <= k < |accounts| => AccountItem(accounts[k]))
  }

  function ValueIn(ids: seq<Guid>): SelectItem -> bool { (i: SelectItem) => i.value in ids }

  function ValueNotIn(ids: seq<Guid>): SelectItem -> bool { (i: SelectItem) => i.value !in ids }

  /** GetAssignAccountsViewModelAsync: the first maxAccounts accounts, split
      into those not linked to the cost center and those linked, each list in
      account order; together they are exactly the accounts taken. */
  function AssignView(accounts: seq<Account>, links: seq<AccountCostCenter>, cc: Guid, maxAccounts: int): (vm: AssignAccountsVm)
    ensures vm.costCenterId == cc && vm.selectedIds == CenterAccounts(links, cc)
    ensures forall x :: x in vm.availableAccounts <==> x in Items(Take(accounts, maxAccounts)) && AccountCostCenter(x.value, cc) !in links
    ensures forall x :: x in vm.assignedAccounts <==> x in Items(Take(accounts, maxAccounts)) && AccountCostCenter(x.value, cc) in links
    ensures multiset(vm.availableAccounts) + multiset(vm.assignedAccounts) == multiset(Items(Take(accounts, maxAccounts)))
    ensures SubsequenceOf(vm.availableAccounts, Items(Take(accounts, maxAccounts))) &&
            SubsequenceOf(vm.assignedAccounts, Items(Take(accounts, maxAccounts)))
  {
    var linked := CenterAccounts(links, cc);
    var all := Items(Take(accounts, maxAccounts));
    SplitByLinks(all, linked, links, cc);
    AssignAccountsVm(cc, Where(all, ValueNotIn(linked)), Where(all, ValueIn(linked)), linked)
  }

  lemma SplitByLinks(all: seq<SelectItem>, linked: seq<Guid>, links: seq<AccountCostCenter>, cc: Guid)
    requires forall a :: a in linked <==> AccountCostCenter(a, cc) in links
    ensures var available := Where(all, ValueNotIn(linked));
      var chosen := Where(all, ValueIn(linked));
      (forall x :: x in available <==> x in all && AccountCostCenter(x.value, cc) !in links) &&
      (forall x :: x in chosen <==> x in all && AccountCostCenter(x.value, cc) in links) &&
      multiset(available) + multiset(chosen) == multiset(all) &&
      SubsequenceOf(available, all) && SubsequenceOf(chosen, all)
  {
    WhereMembers(all, ValueNotIn(linked));
    WhereMembers(all, ValueIn(linked));
    WherePartition(all, ValueIn(linked), ValueNotIn(linked));
  }

  // ---------------------------------------------------------------------------
  // Assigning accounts
  // ---------------------------------------------------------------------------

  /** The first loop of AssignAccountsToCostCenterAsync: the links of the
      current accounts that were not chosen, removed one by one. */
  function Removed(links: seq<AccountCostCenter>, cc: Guid, current: seq<Guid>, keep: seq<Guid>): (r: seq<AccountCostCenter>)
    ensures |r| <= |links| && forall x :: x in r ==> x in links
    ensures forall x :: x in links && x.costCenterId != cc ==> x in r
    decreases |current|
  {
    if current == [] then links
    else
      var before := Removed(links, cc, current[..|current| - 1], keep);
      var a := current[|current| - 1];
      if a in keep then before else RemoveLink(before, AccountCostCenter(a, cc))
  }

  /** The second loop: the chosen accounts that were not current, added one by one. */
  function Added(links: seq<AccountCostCenter>, cc: Guid, ids: seq<Guid>, current: seq<Guid>): (r: seq<AccountCostCenter>)
    ensures forall x :: x in links ==> x in r
    ensures forall x :: x in r && x !in links ==> x.costCenterId == cc && x.accountId in ids
    decreases |ids|
  {
    if ids == [] then links
    else
      var before := Added(links, cc, ids[..|ids| - 1], current);
      var a := ids[|ids| - 1];
      if a in current then before else AddLink(before, AccountCostCenter(a, cc))
  }

  /** The link table after AssignAccountsToCostCenterAsync. */
  function Assigned(links: seq<AccountCostCenter>, cc: Guid, ids: seq<Guid>): (r: seq<AccountCostCenter>)
    ensures forall x: AccountCostCenter :: x.costCenterId != cc ==> (x in r <==> x in links)
  {
    var current := CenterAccounts(links, cc);
    Added(Removed(links, cc, current, ids), cc, ids, current)
  }

  lemma {:induction false} RemovedEffect(links: seq<AccountCostCenter>, cc: Guid, current: seq<Guid>, keep: seq<Guid>)
    requires PairsDistinct(links)
    ensures var r := Removed(links, cc, current, keep);
      PairsDistinct(r) &&
      (forall x: AccountCostCenter :: x.costCenterId != cc ==> (x in r <==> x in links)) &&
      (forall a :: AccountCostCenter(a, cc) in r <==> AccountCostCenter(a, cc) in links && (a in keep || a !in current))
    decreases |current|
  {
    if current != [] {
      var init := current[..|current| - 1];
      var last := current[|current| - 1];
      RemovedEffect(links, cc, init, keep);
      var before := Removed(links, cc, init, keep);
      RemovedStep(links, cc, current, keep);
      SnocMembers(current);
      if last !in keep {
        var r := RemoveLink(before, AccountCostCenter(last, cc));
        assert PairsDistinct(r) && forall x :: x in r <==> x in before && x != AccountCostCenter(last, cc);
      }
    }
  }

  /** The members of a non-empty sequence are those of its front and its last element. */
  lemma SnocMembers<T>(s: seq<T>)
    requires s != []
    ensures forall a :: a in s <==> a in s[..|s| - 1] || a == s[|s| - 1]
  {
    assert s == s[..|s| - 1] + [s[|s| - 1]];
  }

  lemma RemovedStep(links: seq<AccountCostCenter>, cc: Guid, current: seq<Guid>, keep: seq<Guid>)
    requires current != []
    ensures var before := Removed(links, cc, current[..|current| - 1], keep);
      var last := current[|current| - 1];
      Removed(links, cc, current, keep) == if last in keep then before else RemoveLink(before, AccountCostCenter(last, cc))
  {
  }

  lemma {:induction false} AddedEffect(links: seq<AccountCostCenter>, cc: Guid, ids: seq<Guid>, current: seq<Guid>)
    requires PairsDistinct(links)
    ensures var r := Added(links, cc, ids, current);
      PairsDistinct(r) &&
      (forall x: AccountCostCenter :: x.costCenterId != cc ==> (x in r <==> x in links)) &&
      (forall a :: AccountCostCenter(a, cc) in r <==> AccountCostCenter(a, cc) in links || (a in ids && a !in current))
    decreases |ids|
  {
    if ids != [] {
      var init := ids[..|ids| - 1];
      AddedEffect(links, cc, init, current);
      SnocMembers(ids);
    }
  }

  /** After the assignment the cost center is linked to exactly the chosen
      accounts, no pair is stored twice, and the links of every other cost
      center are as they were. */
  lemma AssignedExactly(links: seq<AccountCostCenter>, cc: Guid, ids: seq<Guid>)
    requires PairsDistinct(links)
    ensures var r := Assigned(links, cc, ids);
      PairsDistinct(r) &&
      (forall a :: a in CenterAccounts(r, cc) <==> a in ids) &&
      (forall x: AccountCostCenter :: x.costCenterId != cc ==> (x in r <==> x in links))
  {
    var current := CenterAccounts(links, cc);
    RemovedEffect(links, cc, current, ids);
    AddedEffect(Removed(links, cc, current, ids), cc, ids, current);
  }

  /** The service object: the cost-center table and the link table it changes. */
  class CostCenterService {
    var centers: seq<CostCenter>
    var links: seq<AccountCostCenter>

    constructor (centers: seq<CostCenter>, links: seq<AccountCostCenter>)
      ensures this.centers == centers && this.links == links
    {
      this.centers := centers;
      this.links := links;
    }

    /** CreateCostCenterAsync: the level is assigned and the row added under
        the key Add gives it (`generated`, when the id is Guid.Empty); a
        taken id is a key violation. */
    method CreateCostCenter(c: CostCenter, generated: Guid) returns (r: Result<CostCenter, Fault>)
      requires generated != 0 && GetById(centers, CenterId, generated).None?
      modifies this`centers
      ensures var keyed := c.(id := StoredKey(c.id, generated));
        r == if GetById(old(centers), CenterId, keyed.id).Some? then Err(DuplicateKey) else Ok(WithLevel(old(centers), keyed))
      ensures c.id == 0 ==> r.Ok?
      ensures centers == if r.Ok? then old(centers) + [r.value] else old(centers)
    {
      var keyed := c.(id := StoredKey(c.id, generated));
      var levelled := WithLevel(centers, keyed);
      if GetById(centers, CenterId, keyed.id).Some? {
        return Err(DuplicateKey);
      }
      centers := centers + [levelled];
      r := Ok(levelled);
    }

    /** UpdateCostCenterAsync: the level is assigned and the stored row replaced. */
    method UpdateCostCenter(c: CostCenter) returns (r: Outcome<Fault>)
      modifies this`centers
      ensures r == if GetById(old(centers), CenterId, c.id).Some? then Done else Fail(NotFound)
      ensures centers == Replace(old(centers), CenterId, WithLevel(old(centers), c))
    {
      var levelled := WithLevel(centers, c);
      r := if GetById(centers, CenterId, c.id).Some? then Done else Fail(NotFound);
      centers := Replace(centers, CenterId, levelled);
    }

    /** DeleteCostCenterAsync: a missing id changes nothing. */
    method DeleteCostCenter(id: Guid)
      modifies this`centers
      ensures centers == DeleteById(old(centers), CenterId, id)
    {
      centers := DeleteById(centers, CenterId, id);
    }

    /** AddCostCenterAccountAsync. */
    method AddCostCenterAccount(cc: Guid, accountId: Guid)
      modifies this`links
      ensures links == AddLink(old(links), AccountCostCenter(accountId, cc))
    {
      var link := AccountCostCenter(accountId, cc);
      if link !in links {
        links := links + [link];
      }
    }

    /** RemoveCostCenterAccountAsync. */
    method RemoveCostCenterAccount(cc: Guid, accountId: Guid)
      modifies this`links
      ensures links == RemoveLink(old(links), AccountCostCenter(accountId, cc))
    {
      links := RemoveLink(links, AccountCostCenter(accountId, cc));
    }

    /** AssignAccountsToCostCenterAsync: unlink the current accounts that were
        not chosen, then link the chosen accounts that were not current. */
    method AssignAccountsToCostCenter(cc: Guid, accountIds: seq<Guid>)
      modifies this`links
      ensures links == Assigned(old(links), cc, accountIds)
      ensures PairsDistinct(old(links)) ==>
                PairsDistinct(links) && (forall a :: a in CenterAccounts(links, cc) <==> a in accountIds) &&
                (forall x: AccountCostCenter :: x.costCenterId != cc ==> (x in links <==> x in old(links)))
    {
      var currentIds := CenterAccounts(links, cc);
      for i := 0 to |currentIds|
        invariant links == Removed(old(links), cc, currentIds[..i], accountIds)
      {
        assert currentIds[..i + 1][..i] == currentIds[..i];
        if currentIds[i] !in accountIds {
          RemoveCostCenterAccount(cc, currentIds[i]);
        }
      }
      assert currentIds[..|currentIds|] == currentIds;
      for j := 0 to |accountIds|
        invariant links == Added(Removed(old(links), cc, currentIds, accountIds), cc, accountIds[..j], currentIds)
      {
        assert accountIds[..j + 1][..j] == accountIds[..j];
        if accountIds[j] !in currentIds {
          AddCostCenterAccount(cc, accountIds[j]);
        }
      }
      assert accountIds[..|accountIds|] == accountIds;
      if PairsDistinct(old(links)) {
        AssignedExactly(old(links), cc, accountIds);
      }
    }
  }
}
