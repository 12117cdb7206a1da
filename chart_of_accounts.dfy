// The chart-of-accounts service (Areas/Accounting/Services/ChartOfAccountsService.cs):
// level assignment on create and update, code uniqueness, the delete guard,
// the cost-center links of an account and the isActive filter.

module ChartOfAccounts {
  import opened Wrappers
  import opened Ledger
  import opened Repository
  import opened Catalog

  function AccountKey(a: Account): nat { a.id }
  function AccountLevel(a: Account): int { a.level }
  function AccountParent(a: Account): Option<Guid> { a.parentId }
  function AccountCode(a: Account): string { a.code }
  function AccountActive(a: Account): bool { a.isActive }

  /** The account as Create and Update leave it: only its Level changes, to
      one more than its parent's, to 1 without a parent, and not at all when
      the parent id finds no account. */
  function WithLevel(accounts: seq<Account>, a: Account): (r: Account)
    ensures r == a.(level := r.level)
    ensures a.parentId.None? ==> r.level == 1
    ensures a.parentId.Some? && GetById(accounts, AccountKey, a.parentId.value).Some? ==>
              r.level == GetById(accounts, AccountKey, a.parentId.value).value.level + 1
    ensures a.parentId.Some? && GetById(accounts, AccountKey, a.parentId.value).None? ==> r == a
  {
    a.(level := LevelFor(accounts, AccountKey, AccountLevel, a.parentId, a.level))
  }

  /** Every stored account has the level the service would assign it. */
  predicate Levelled(accounts: seq<Account>)
  {
    LevelsConsistent(accounts, AccountKey, AccountParent, AccountLevel)
  }

  /** Creating an account under a fresh id that no stored account names as
      its parent keeps every level consistent. */
  lemma CreationKeepsLevels(accounts: seq<Account>, a: Account)
    requires Levelled(accounts) && GetById(accounts, AccountKey, a.id).None? && a.parentId != Some(a.id)
    requires forall k :: 0 <= k < |accounts| ==> accounts[k].parentId != Some(a.id)
    ensures Levelled(accounts + [WithLevel(accounts, a)])
  {
    LevelsAppend(accounts, AccountKey, AccountParent, AccountLevel, WithLevel(accounts, a), a.level);
  }

  /** IsAccountCodeUniqueAsync. */
  function IsCodeUnique(accounts: seq<Account>, code: string, id: Option<Guid>): (r: bool)
    ensures id.None? ==> (r <==> forall k :: 0 <= k < |accounts| ==> accounts[k].code != code)
    ensures DistinctCodes(accounts, AccountCode) ==>
              (r <==> forall k :: 0 <= k < |accounts| && accounts[k].code == code ==> id == Some(accounts[k].id))
  {
    CodeUniqueExactlyIfDistinct(accounts, code, id);
    CodeIsUnique(accounts, AccountKey, AccountCode, code, id)
  }

  lemma CodeUniqueExactlyIfDistinct(accounts: seq<Account>, code: string, id: Option<Guid>)
    ensures DistinctCodes(accounts, AccountCode) ==>
              (CodeIsUnique(accounts, AccountKey, AccountCode, code, id) <==>
               forall k :: 0 <= k < |accounts| && accounts[k].code == code ==> id == Some(accounts[k].id))
  {
    if DistinctCodes(accounts, AccountCode) {
      CodeUniqueExactly(accounts, AccountKey, AccountCode, code, id);
    }
  }

  /** CanDeleteAccountAsync: no journal line posts to the account, and it has
      no children; an account that is not stored has none. */
  function CanDelete(accounts: seq<Account>, lines: seq<JournalLine>, id: Guid): (r: bool)
    ensures r <==> (forall k :: 0 <= k < |lines| ==> lines[k].accountId != id) &&
                   (GetById(accounts, AccountKey, id).None? || forall k :: 0 <= k < |accounts| ==> accounts[k].parentId != Some(id))
  {
    !(exists k :: 0 <= k < |lines| && lines[k].accountId == id) &&
    (GetById(accounts, AccountKey, id).None? || !(exists k :: 0 <= k < |accounts| && accounts[k].parentId == Some(id)))
  }

  /** Deleting a stored account the guard allows leaves no account whose
      parent is gone and no journal line posting to it. */
  lemma DeletionLeavesNoOrphans(accounts: seq<Account>, lines: seq<JournalLine>, id: Guid)
    requires UniqueKeys(accounts, AccountKey) && GetById(accounts, AccountKey, id).Some? && CanDelete(accounts, lines, id)
    ensures var r := DeleteById(accounts, AccountKey, id);
      |r| == |accounts| - 1 && GetById(r, AccountKey, id).None? &&
      (forall k :: 0 <= k < |r| ==> r[k].parentId != Some(id)) &&
      (forall k :: 0 <= k < |lines| ==> lines[k].accountId != id)
  {
    DeleteByIdEffect(accounts, AccountKey, id);
    var r := DeleteById(accounts, AccountKey, id);
    forall k | 0 <= k < |r| ensures r[k].parentId != Some(id) {
      assert r[k] in accounts;
    }
  }

  /** GetAccountsAsync. */
  function AccountsWhere(accounts: seq<Account>, isActive: Option<bool>): (r: seq<Account>)
    ensures isActive.None? ==> r == accounts
    ensures forall a :: a in r <==> a in accounts && (isActive.None? || a.isActive == isActive.value)
    ensures SubsequenceOf(r, accounts)
  {
    ByActive(accounts, AccountActive, isActive)
  }

  /** The service object: the account table and the link table it changes. */
  class ChartOfAccountsService {
    var accounts: seq<Account>
    var links: seq<AccountCostCenter>

    constructor (accounts: seq<Account>, links: seq<AccountCostCenter>)
      ensures this.accounts == accounts && this.links == links
    {
      this.accounts := accounts;
      this.links := links;
    }

    /** CreateAccountAsync: the level is assigned and the row added under
        the key Add gives it (`generated`, when the id is Guid.Empty); a
        taken id is a key violation. */
    method CreateAccount(a: Account, generated: Guid) returns (r: Result<Account, Fault>)
      requires generated != 0 && GetById(accounts, AccountKey, generated).None?
      modifies this`accounts
      ensures var keyed := a.(id := StoredKey(a.id, generated));
        r == if GetById(old(accounts), AccountKey, keyed.id).Some? then Err(DuplicateKey) else Ok(WithLevel(old(accounts), keyed))
      ensures a.id == 0 ==> r.Ok?
      ensures accounts == if r.Ok? then old(accounts) + [r.value] else old(accounts)
    {
      var keyed := a.(id := StoredKey(a.id, generated));
      var levelled := WithLevel(accounts, keyed);
      if GetById(accounts, AccountKey, keyed.id).Some? {
        return Err(DuplicateKey);
      }
      accounts := accounts + [levelled];
      r := Ok(levelled);
    }

    /** UpdateAccountAsync: the level is assigned and the stored row replaced. */
    method UpdateAccount(a: Account) returns (r: Outcome<Fault>)
      modifies this`accounts
      ensures r == if GetById(old(accounts), AccountKey, a.id).Some? then Done else Fail(NotFound)
      ensures accounts == Replace(old(accounts), AccountKey, WithLevel(old(accounts), a))
    {
      var levelled := WithLevel(accounts, a);
      r := if GetById(accounts, AccountKey, a.id).Some? then Done else Fail(NotFound);
      accounts := Replace(accounts, AccountKey, levelled);
    }

    /** DeleteAccountAsync: a missing id changes nothing. */
    method DeleteAccount(id: Guid)
      modifies this`accounts
      ensures accounts == DeleteById(old(accounts), AccountKey, id)
    {
      accounts := DeleteById(accounts, AccountKey, id);
    }

    /** AddAccountCostCenterAsync. */
    method AddAccountCostCenter(accountId: Guid, cc: Guid)
      modifies this`links
      ensures links == AddLink(old(links), AccountCostCenter(accountId, cc))
    {
      var link := AccountCostCenter(accountId, cc);
      if link !in links {
        links := links + [link];
      }
    }

    /** RemoveAccountCostCenterAsync. */
    method RemoveAccountCostCenter(accountId: Guid, cc: Guid)
      modifies this`links
      ensures links == RemoveLink(old(links), AccountCostCenter(accountId, cc))
    {
      links := RemoveLink(links, AccountCostCenter(accountId, cc));
    }
  }
}
