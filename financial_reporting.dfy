// The report builders of Areas/Accounting/Services/FinancialReportingService.cs:
// the trial balance with debit and credit balances, the balance sheet, the
// income statement and the cash-flow statement, and the totals of the report
// classes. Only approved entries are read; each builder's foreach/Add loops
// are methods proved equal to the report functions the lemmas are about.

module FinancialReporting {
  import opened Wrappers
  import opened Sorting
  import opened Ledger
  import opened Repository
  import opened TrialBalance
  import ChartOfAccounts
  import CostCenters

  // ---------------------------------------------------------------------
  // What is read

  /** `Status == Approved && PostingDate <= asOfDate`. */
  function PostedBy(asOf: Ticks): JournalEntry -> bool
  {
    (e: JournalEntry) => e.status == Approved && e.postingDate <= asOf
  }

  /** `Status == Approved && PostingDate >= fromDate && PostingDate <= toDate`. */
  function PostedWithin(from: Ticks, to: Ticks): JournalEntry -> bool
  {
    (e: JournalEntry) => e.status == Approved && from <= e.postingDate <= to
  }

  function IsApproved(e: JournalEntry): bool { e.status == Approved }

  /** Only approved entries contribute: a line is read exactly when it belongs
      to an approved entry in range and matches the cost center, and dropping
      every unapproved entry first changes nothing. */
  lemma OnlyApprovedEntries(entries: seq<JournalEntry>, asOf: Ticks, from: Ticks, to: Ticks, cc: Option<Guid>)
    ensures forall x :: x in LinesOf(entries, PostedBy(asOf), cc) <==>
              (exists i :: 0 <= i < |entries| && entries[i].status == Approved && entries[i].postingDate <= asOf &&
                 x in entries[i].lines) && CenterMatches(cc, x)
    ensures forall x :: x in LinesOf(entries, PostedWithin(from, to), cc) <==>
              (exists i :: 0 <= i < |entries| && entries[i].status == Approved && from <= entries[i].postingDate <= to &&
                 x in entries[i].lines) && CenterMatches(cc, x)
    ensures LinesOf(entries, PostedBy(asOf), cc) == LinesOf(Where(entries, IsApproved), PostedBy(asOf), cc)
    ensures LinesOf(entries, PostedWithin(from, to), cc) == LinesOf(Where(entries, IsApproved), PostedWithin(from, to), cc)
  {
    LinesOfMembers(entries, PostedBy(asOf), cc);
    LinesOfMembers(entries, PostedWithin(from, to), cc);
    LinesOfOnlyKept(entries, PostedBy(asOf), IsApproved, cc);
    LinesOfOnlyKept(entries, PostedWithin(from, to), IsApproved, cc);
  }

  /** The cost center the report names: GetByIdAsync when an id is given. */
  function CenterOf(centers: seq<CostCenter>, cc: Option<Guid>): (r: Option<CostCenter>)
    ensures r.Some? ==> cc.Some? && r.value.id == cc.value && r.value in centers
    ensures cc.Some? && (exists k :: 0 <= k < |centers| && centers[k].id == cc.value) ==> r.Some?
  {
    if cc.Some? then GetById(centers, CostCenters.CenterId, cc.value) else None
  }

  function CodeKey(a: Account): seq<int> { StringKey(a.code) }

  /** `OrderBy(a => a.Code)`. */
  function ByCode(accounts: seq<Account>): (r: seq<Account>)
    ensures multiset(r) == multiset(accounts) && |r| == |accounts|
    ensures SortedBy(r, CodeKey, false)
  {
    SortBy(accounts, CodeKey, false)
  }

  /** The net of an account over the lines read: debits minus credits. */
  function AccountNet(lines: seq<JournalLine>): Account -> real
  {
    (a: Account) => DebitOf(lines, a.id) - CreditOf(lines, a.id)
  }

  // ---------------------------------------------------------------------
  // Trial balance

  /** TrialBalanceReportItem. */
  datatype TrialBalanceItem = TrialBalanceItem(
    accountId: Guid,
    accountCode: string,
    accountName: string,
    level: int,
    debitBalance: real,
    creditBalance: real)

  /** TrialBalanceReport, with TotalDebit and TotalCredit. */
  datatype TrialBalanceReport = TrialBalanceReport(
    asOfDate: Ticks,
    costCenter: Option<CostCenter>,
    level: int,
    items: seq<TrialBalanceItem>)
  {
    function TotalDebit(): real { Sum(items, ItemDebit) }
    function TotalCredit(): real { Sum(items, ItemCredit) }
  }

  function ItemDebit(i: TrialBalanceItem): real { i.debitBalance }

  function ItemCredit(i: TrialBalanceItem): real { i.creditBalance }

  function ItemDiff(i: TrialBalanceItem): real { i.debitBalance - i.creditBalance }

  function ItemKey(i: TrialBalanceItem): seq<int> { StringKey(i.accountCode) }

  /** `level == 0 || a.Level <= level`. */
  function UpToLevel(level: int): Account -> bool { (a: Account) => level == 0 || a.level <= level }

  /** The item of an account: its net split into a debit or a credit balance. */
  function ItemOf(lines: seq<JournalLine>, a: Account): TrialBalanceItem
  {
    SplitItem(a, DebitOf(lines, a.id) - CreditOf(lines, a.id))
  }

  /** `DebitBalance = net > 0 ? net : 0, CreditBalance = net < 0 ? -net : 0`. */
  function SplitItem(a: Account, net: real): TrialBalanceItem
  {
    TrialBalanceItem(a.id, a.code, a.nameEn, a.level, if net > 0.0 then net else 0.0, if net < 0.0 then -net else 0.0)
  }

  /** An account of the filtered chart gets an item when it has lines, or,
      with level filtering, a zero item when it has none. */
  predicate Listed(lines: seq<JournalLine>, level: int, a: Account)
  {
    (level == 0 || a.level <= level) && (HasLines(lines, a.id) || (level > 0 && a.level <= level))
  }

  /** What one pass of the loop adds for an account. */
  function ItemsFor(lines: seq<JournalLine>, level: int, a: Account): seq<TrialBalanceItem>
  {
    if HasLines(lines, a.id) then [ItemOf(lines, a)]
    else if level > 0 && a.level <= level then [TrialBalanceItem(a.id, a.code, a.nameEn, a.level, 0.0, 0.0)]
    else []
  }

  /** The items the loop collects over the accounts in order. */
  function TrialItems(ordered: seq<Account>, lines: seq<JournalLine>, level: int): (r: seq<TrialBalanceItem>)
    ensures |r| <= |ordered|
    decreases |ordered|
  {
    if ordered == [] then []
    else TrialItems(ordered[..|ordered| - 1], lines, level) + ItemsFor(lines, level, ordered[|ordered| - 1])
  }

  /** GenerateTrialBalanceAsync(asOfDate, costCenterId, level) as a value. */
  function TrialBalanceOf(accounts: seq<Account>, entries: seq<JournalEntry>, centers: seq<CostCenter>,
                          asOf: Ticks, cc: Option<Guid>, level: int): (r: TrialBalanceReport)
    ensures r.asOfDate == asOf && r.level == level && r.costCenter == CenterOf(centers, cc)
    ensures |r.items| <= |accounts|
  {
    var lines := LinesOf(entries, PostedBy(asOf), cc);
    TrialBalanceReport(asOf, CenterOf(centers, cc), level, TrialItems(ByCode(Where(accounts, UpToLevel(level))), lines, level))
  }

  /** One more account extends the items by what the loop adds for it. */
  lemma TrialItemsStep(ordered: seq<Account>, i: nat, lines: seq<JournalLine>, level: int)
    requires i < |ordered|
    ensures TrialItems(ordered[..i + 1], lines, level) == TrialItems(ordered[..i], lines, level) + ItemsFor(lines, level, ordered[i])
  {
    assert ordered[..i + 1][..i] == ordered[..i];
  }

  /** GenerateTrialBalanceAsync: the accounts up to the level, the cost
      center, the approved lines, and the items of the accounts by code. */
  method GenerateTrialBalance(accounts: seq<Account>, entries: seq<JournalEntry>, centers: seq<CostCenter>,
                              asOf: Ticks, cc: Option<Guid>, level: int) returns (report: TrialBalanceReport)
    ensures report == TrialBalanceOf(accounts, entries, centers, asOf, cc, level)
  {
    var chart := Where(accounts, UpToLevel(level));
    var costCenter := CenterOf(centers, cc);
    var lines := LinesOf(entries, PostedBy(asOf), cc);
    var items := CollectTrialItems(ByCode(chart), lines, level);
    report := TrialBalanceReport(asOf, costCenter, level, items);
  }

  /** The foreach over the accounts ordered by code: an item for an account
      with lines, a zero item for one without when a level is given. */
  method CollectTrialItems(ordered: seq<Account>, lines: seq<JournalLine>, level: int) returns (items: seq<TrialBalanceItem>)
    ensures items == TrialItems(ordered, lines, level)
  {
    items := [];
    for i := 0 to |ordered|
      invariant items == TrialItems(ordered[..i], lines, level)
    {
      var account := ordered[i];
      var added: seq<TrialBalanceItem> := [];
      if HasLines(lines, account.id) {
        var netBalance := DebitOf(lines, account.id) - CreditOf(lines, account.id);
        added := [TrialBalanceItem(account.id, account.code, account.nameEn, account.level,
                                   if netBalance > 0.0 then netBalance else 0.0,
                                   if netBalance < 0.0 then -netBalance else 0.0)];
      } else if level > 0 && account.level <= level {
        added := [TrialBalanceItem(account.id, account.code, account.nameEn, account.level, 0.0, 0.0)];
      }
      TrialItemsStep(ordered, i, lines, level);
      items := items + added;
    }
    assert ordered[..|ordered|] == ordered;
  }

  /** Within the level filter, an account adds its item exactly when it is
      listed; a zero item is the item of an account without lines. */
  lemma ItemsForListed(lines: seq<JournalLine>, level: int, a: Account)
    requires level == 0 || a.level <= level
    ensures ItemsFor(lines, level, a) == if Listed(lines, level, a) then [ItemOf(lines, a)] else []
  {
    if !HasLines(lines, a.id) {
      NoLinesNoSums(lines, a.id);
    }
  }

  /** Every item splits its account's net into two non-negative balances, at
      most one of them non-zero, whose difference is the net; a zero item
      belongs to an account with no lines, whose net is 0. */
  lemma {:induction false} ItemBalances(ordered: seq<Account>, lines: seq<JournalLine>, level: int)
    ensures forall x :: x in TrialItems(ordered, lines, level) ==> SplitsNet(lines, x)
    decreases |ordered|
  {
    if ordered != [] {
      var a := ordered[|ordered| - 1];
      var before := TrialItems(ordered[..|ordered| - 1], lines, level);
      var items := TrialItems(ordered, lines, level);
      ItemBalances(ordered[..|ordered| - 1], lines, level);
      ItemsForIsItemOf(lines, level, a);
      assert items == before + ItemsFor(lines, level, a);
    }
  }

  /** The loop adds nothing or the item of the account; a zero item is the
      item of an account with no lines. */
  lemma ItemsForIsItemOf(lines: seq<JournalLine>, level: int, a: Account)
    ensures ItemsFor(lines, level, a) == [] || ItemsFor(lines, level, a) == [ItemOf(lines, a)]
    ensures SplitsNet(lines, ItemOf(lines, a))
  {
    if !HasLines(lines, a.id) {
      NoLinesNoSums(lines, a.id);
    }
  }

  /** The balances of an item split its account's net. */
  predicate SplitsNet(lines: seq<JournalLine>, i: TrialBalanceItem)
  {
    i.debitBalance >= 0.0 && i.creditBalance >= 0.0 &&
    (i.debitBalance == 0.0 || i.creditBalance == 0.0) &&
    i.debitBalance - i.creditBalance == DebitOf(lines, i.accountId) - CreditOf(lines, i.accountId)
  }

  /** The items are those of the accounts in `ordered` that are listed. */
  lemma {:induction false} TrialItemsMembers(ordered: seq<Account>, lines: seq<JournalLine>, level: int)
    requires forall k :: 0 <= k < |ordered| ==> level == 0 || ordered[k].level <= level
    ensures forall x :: x in TrialItems(ordered, lines, level) <==>
              exists a :: a in ordered && Listed(lines, level, a) && x == ItemOf(lines, a)
    decreases |ordered|
  {
    if ordered != [] {
      var init := ordered[..|ordered| - 1];
      var a := ordered[|ordered| - 1];
      assert forall k :: 0 <= k < |init| ==> init[k] == ordered[k];
      TrialItemsMembers(init, lines, level);
      ItemsForListed(lines, level, a);
      assert ordered == init + [a];
      assert forall b :: b in ordered <==> b in init || b == a;
    }
  }

  /** Each item carries the code of an account at or before position `n`. */
  lemma {:induction false} TrialItemsCodes(ordered: seq<Account>, lines: seq<JournalLine>, level: int)
    ensures forall x :: x in TrialItems(ordered, lines, level) ==>
              exists j :: 0 <= j < |ordered| && x.accountCode == ordered[j].code
    decreases |ordered|
  {
    if ordered != [] {
      var init := ordered[..|ordered| - 1];
      TrialItemsCodes(init, lines, level);
      forall x | x in TrialItems(ordered, lines, level) ensures exists j :: 0 <= j < |ordered| && x.accountCode == ordered[j].code {
        if x in TrialItems(init, lines, level) {
          var j :| 0 <= j < |init| && x.accountCode == init[j].code;
          assert ordered[j] == init[j];
        } else {
          assert x.accountCode == ordered[|ordered| - 1].code;
        }
      }
    }
  }

  /** The items follow the order of the accounts they come from. */
  lemma {:induction false} TrialItemsSorted(ordered: seq<Account>, lines: seq<JournalLine>, level: int)
    requires SortedBy(ordered, CodeKey, false)
    ensures SortedBy(TrialItems(ordered, lines, level), ItemKey, false)
    decreases |ordered|
  {
    if ordered != [] {
      var init := ordered[..|ordered| - 1];
      var a := ordered[|ordered| - 1];
      SortedSlice(ordered, CodeKey, false, 0, |ordered| - 1);
      TrialItemsSorted(init, lines, level);
      TrialItemsCodes(init, lines, level);
      var before := TrialItems(init, lines, level);
      var items := TrialItems(ordered, lines, level);
      assert forall x :: x in before ==> KeyLe(StringKey(x.accountCode), StringKey(a.code)) by {
        forall x | x in before ensures KeyLe(StringKey(x.accountCode), StringKey(a.code)) {
          var j :| 0 <= j < |init| && x.accountCode == init[j].code;
          assert ordered[j] == init[j];
        }
      }
      KeyLeReflexive(StringKey(a.code));
      forall i, j | 0 <= i < j < |items| ensures InOrder(false, ItemKey(items[i]), ItemKey(items[j])) {
        if j < |before| {
          assert items[i] == before[i] && items[j] == before[j];
        } else if i < |before| {
          assert items[i] in before;
        }
      }
    }
  }

  /** The items over the chart are the items of its listed accounts. */
  lemma ChartListing(accounts: seq<Account>, lines: seq<JournalLine>, level: int)
    ensures forall x :: x in TrialItems(ByCode(Where(accounts, UpToLevel(level))), lines, level) <==>
              exists a :: a in accounts && Listed(lines, level, a) && x == ItemOf(lines, a)
  {
    var chart := Where(accounts, UpToLevel(level));
    var ordered := ByCode(chart);
    WhereMembers(accounts, UpToLevel(level));
    SortByMembers(chart, CodeKey, false);
    assert forall k :: 0 <= k < |ordered| ==> level == 0 || ordered[k].level <= level by {
      forall k | 0 <= k < |ordered| ensures level == 0 || ordered[k].level <= level {
        assert ordered[k] in chart;
      }
    }
    TrialItemsMembers(ordered, lines, level);
    assert forall a :: a in ordered && Listed(lines, level, a) <==> a in accounts && Listed(lines, level, a);
  }

  /** Which accounts the trial balance lists: at level 0 the accounts with
      lines, of any level; at a level above 0 every account up to that level,
      with zero balances where there are no lines; below 0 the accounts up to
      that level that have lines. Items are in account-code order. */
  lemma TrialBalanceListing(accounts: seq<Account>, entries: seq<JournalEntry>, centers: seq<CostCenter>,
                            asOf: Ticks, cc: Option<Guid>, level: int)
    ensures var lines := LinesOf(entries, PostedBy(asOf), cc);
      var items := TrialBalanceOf(accounts, entries, centers, asOf, cc, level).items;
      forall x :: x in items <==> exists a :: a in accounts && Listed(lines, level, a) && x == ItemOf(lines, a)
    ensures var lines := LinesOf(entries, PostedBy(asOf), cc);
      forall a :: Listed(lines, level, a) <==>
        if level == 0 then HasLines(lines, a.id)
        else if level > 0 then a.level <= level
        else a.level <= level && HasLines(lines, a.id)
    ensures SortedBy(TrialBalanceOf(accounts, entries, centers, asOf, cc, level).items, ItemKey, false)
  {
    var lines := LinesOf(entries, PostedBy(asOf), cc);
    ChartListing(accounts, lines, level);
    TrialItemsSorted(ByCode(Where(accounts, UpToLevel(level))), lines, level);
  }

  /** Every balance is non-negative, at most one per item is non-zero, and
      TotalDebit − TotalCredit is the sum of the items' nets. */
  lemma TrialBalanceAmounts(accounts: seq<Account>, entries: seq<JournalEntry>, centers: seq<CostCenter>,
                            asOf: Ticks, cc: Option<Guid>, level: int)
    ensures var lines := LinesOf(entries, PostedBy(asOf), cc);
      var r := TrialBalanceOf(accounts, entries, centers, asOf, cc, level);
      (forall x :: x in r.items ==> SplitsNet(lines, x)) &&
      r.TotalDebit() >= 0.0 && r.TotalCredit() >= 0.0 &&
      r.TotalDebit() - r.TotalCredit() == Sum(r.items, ItemDiff)
  {
    var lines := LinesOf(entries, PostedBy(asOf), cc);
    var r := TrialBalanceOf(accounts, entries, centers, asOf, cc, level);
    ItemBalances(ByCode(Where(accounts, UpToLevel(level))), lines, level);
    forall k | 0 <= k < |r.items| ensures ItemDebit(r.items[k]) >= 0.0 && ItemCredit(r.items[k]) >= 0.0 {
      assert r.items[k] in r.items;
    }
    SumNonNegative(r.items, ItemDebit);
    SumNonNegative(r.items, ItemCredit);
    SumDifference(r.items, ItemDebit, ItemCredit, ItemDiff);
  }

  // ---------------------------------------------------------------------
  // Balance sheet and income statement

  /** BalanceSheetReportItem and IncomeStatementReportItem, which have the same fields. */
  datatype ReportItem = ReportItem(accountId: Guid, accountCode: string, description: string, level: int, amount: real)

  function Amount(i: ReportItem): real { i.amount }

  function ReportItemKey(i: ReportItem): seq<int> { StringKey(i.accountCode) }

  /** BalanceSheetReport, with its total properties. */
  datatype BalanceSheetReport = BalanceSheetReport(
    asOfDate: Ticks,
    costCenter: Option<CostCenter>,
    assets: seq<ReportItem>,
    liabilities: seq<ReportItem>,
    equity: seq<ReportItem>)
  {
    function TotalAssets(): real { Sum(assets, Amount) }
    function TotalLiabilities(): real { Sum(liabilities, Amount) }
    function TotalEquity(): real { Sum(equity, Amount) }
    function TotalLiabilitiesAndEquity(): real { TotalLiabilities() + TotalEquity() }
  }

  /** IncomeStatementReport, with its total properties. */
  datatype IncomeStatementReport = IncomeStatementReport(
    fromDate: Ticks,
    toDate: Ticks,
    costCenter: Option<CostCenter>,
    revenue: seq<ReportItem>,
    expenses: seq<ReportItem>)
  {
    function TotalRevenue(): real { Sum(revenue, Amount) }
    function TotalExpenses(): real { Sum(expenses, Amount) }
    function NetIncome(): real { TotalRevenue() - TotalExpenses() }
  }

  function OfType(t: AccountType): Account -> bool { (a: Account) => a.accountType == t }

  /** `jel.DebitAmount - jel.CreditAmount`. */
  function LineNet(l: JournalLine): real { l.debit - l.credit }

  /** The balance the dictionary holds for an account: the sum of its lines' nets. */
  function BalanceOf(lines: seq<JournalLine>, id: Guid): real { Sum(Where(lines, OnAccount(id)), LineNet) }

  function AccountBalance(lines: seq<JournalLine>): Account -> real { (a: Account) => BalanceOf(lines, a.id) }

  /** The summed nets are the summed debits minus the summed credits. */
  lemma BalanceIsNet(lines: seq<JournalLine>, id: Guid)
    ensures BalanceOf(lines, id) == DebitOf(lines, id) - CreditOf(lines, id)
  {
    SumDifference(Where(lines, OnAccount(id)), LineDebit, LineCredit, LineNet);
  }

  /** The item of an account in a section: its balance, negated in a
      credit-normal section (liabilities, equity, revenue). */
  function SectionItem(lines: seq<JournalLine>, a: Account, creditNormal: bool): ReportItem
  {
    ReportItem(a.id, a.code, a.nameEn, a.level, if creditNormal then -BalanceOf(lines, a.id) else BalanceOf(lines, a.id))
  }

  /** One item per account, in the given order. */
  function Section(ordered: seq<Account>, lines: seq<JournalLine>, creditNormal: bool): (r: seq<ReportItem>)
    ensures |r| == |ordered| && forall k :: 0 <= k < |r| ==> r[k] == SectionItem(lines, ordered[k], creditNormal)
  {
    if ordered == [] then [] else [SectionItem(lines, ordered[0], creditNormal)] + Section(ordered[1..], lines, creditNormal)
  }

  /** One foreach of the balance sheet or the income statement: an item for
      every account in order, with balance 0 when the account has no lines. */
  method CollectSection(ordered: seq<Account>, lines: seq<JournalLine>, creditNormal: bool) returns (items: seq<ReportItem>)
    ensures items == Section(ordered, lines, creditNormal)
  {
    items := [];
    for i := 0 to |ordered|
      invariant |items| == i && forall k :: 0 <= k < i ==> items[k] == SectionItem(lines, ordered[k], creditNormal)
    {
      var account := ordered[i];
      var balance := 0.0;
      if HasLines(lines, account.id) {
        var netBalance := BalanceOf(lines, account.id);
        balance := if creditNormal then -netBalance else netBalance;
      } else {
        NoLinesNoSums(lines, account.id);
      }
      items := items + [ReportItem(account.id, account.code, account.nameEn, account.level, balance)];
    }
  }

  /** The accounts of a type in code order. */
  function OfTypeByCode(accounts: seq<Account>, t: AccountType): seq<Account>
  {
    ByCode(Where(accounts, OfType(t)))
  }

  /** GenerateBalanceSheetAsync(asOfDate, costCenterId) as a value. */
  function BalanceSheetOf(accounts: seq<Account>, entries: seq<JournalEntry>, centers: seq<CostCenter>,
                          asOf: Ticks, cc: Option<Guid>): (r: BalanceSheetReport)
    ensures r.asOfDate == asOf && r.costCenter == CenterOf(centers, cc)
    ensures |r.assets| == |OfTypeByCode(accounts, Asset)|
    ensures |r.liabilities| == |OfTypeByCode(accounts, Liability)|
    ensures |r.equity| == |OfTypeByCode(accounts, Equity)|
  {
    var lines := LinesOf(entries, PostedBy(asOf), cc);
    BalanceSheetReport(asOf, CenterOf(centers, cc),
                       Section(OfTypeByCode(accounts, Asset), lines, false),
                       Section(OfTypeByCode(accounts, Liability), lines, true),
                       Section(OfTypeByCode(accounts, Equity), lines, true))
  }

  /** GenerateBalanceSheetAsync: the three foreach loops over the asset,
      liability and equity accounts ordered by code. */
  method GenerateBalanceSheet(accounts: seq<Account>, entries: seq<JournalEntry>, centers: seq<CostCenter>,
                              asOf: Ticks, cc: Option<Guid>) returns (report: BalanceSheetReport)
    ensures report == BalanceSheetOf(accounts, entries, centers, asOf, cc)
  {
    var costCenter := CenterOf(centers, cc);
    var assetAccounts := Where(accounts, OfType(Asset));
    var liabilityAccounts := Where(accounts, OfType(Liability));
    var equityAccounts := Where(accounts, OfType(Equity));
    var lines := LinesOf(entries, PostedBy(asOf), cc);
    var assetItems := CollectSection(ByCode(assetAccounts), lines, false);
    var liabilityItems := CollectSection(ByCode(liabilityAccounts), lines, true);
    var equityItems := CollectSection(ByCode(equityAccounts), lines, true);
    report := BalanceSheetReport(asOf, costCenter, assetItems, liabilityItems, equityItems);
  }

  /** GenerateIncomeStatementAsync(fromDate, toDate, costCenterId) as a value. */
  function IncomeStatementOf(accounts: seq<Account>, entries: seq<JournalEntry>, centers: seq<CostCenter>,
                             from: Ticks, to: Ticks, cc: Option<Guid>): (r: IncomeStatementReport)
    ensures r.fromDate == from && r.toDate == to
    ensures r.costCenter.Some? ==> cc.Some? && r.costCenter.value.id == cc.value && r.costCenter.value in centers
  {
    var lines := LinesOf(entries, PostedWithin(from, to), cc);
    IncomeStatementReport(from, to, CenterOf(centers, cc),
                          Section(OfTypeByCode(accounts, Revenue), lines, true),
                          Section(OfTypeByCode(accounts, Expense), lines, false))
  }

  /** GenerateIncomeStatementAsync: the foreach loops over the revenue and
      expense accounts ordered by code. */
  method GenerateIncomeStatement(accounts: seq<Account>, entries: seq<JournalEntry>, centers: seq<CostCenter>,
                                 from: Ticks, to: Ticks, cc: Option<Guid>) returns (report: IncomeStatementReport)
    ensures report == IncomeStatementOf(accounts, entries, centers, from, to, cc)
  {
    var costCenter := CenterOf(centers, cc);
    var revenueAccounts := Where(accounts, OfType(Revenue));
    var expenseAccounts := Where(accounts, OfType(Expense));
    var lines := LinesOf(entries, PostedWithin(from, to), cc);
    var revenueItems := CollectSection(ByCode(revenueAccounts), lines, true);
    var expenseItems := CollectSection(ByCode(expenseAccounts), lines, false);
    report := IncomeStatementReport(from, to, costCenter, revenueItems, expenseItems);
  }

  /** The items of a section are those of its accounts, in their order. */
  lemma SectionMembers(ordered: seq<Account>, lines: seq<JournalLine>, creditNormal: bool)
    ensures forall x :: x in Section(ordered, lines, creditNormal) <==> exists a :: a in ordered && x == SectionItem(lines, a, creditNormal)
    ensures SortedBy(ordered, CodeKey, false) ==> SortedBy(Section(ordered, lines, creditNormal), ReportItemKey, false)
  {
    var items := Section(ordered, lines, creditNormal);
    forall x | x in items ensures exists a :: a in ordered && x == SectionItem(lines, a, creditNormal) {
      var k :| 0 <= k < |items| && items[k] == x;
      assert ordered[k] in ordered;
    }
    forall a | a in ordered ensures SectionItem(lines, a, creditNormal) in items {
      var k :| 0 <= k < |ordered| && ordered[k] == a;
      assert items[k] == SectionItem(lines, a, creditNormal);
    }
    if SortedBy(ordered, CodeKey, false) {
      forall i, j | 0 <= i < j < |items| ensures InOrder(false, ReportItemKey(items[i]), ReportItemKey(items[j])) {
        assert InOrder(false, CodeKey(ordered[i]), CodeKey(ordered[j]));
      }
    }
  }

  /** A section lists every account of its type exactly as often as the chart
      holds it and nothing else, in code order, each with its balance (or its
      negation in a credit-normal section), 0 for an account without lines. */
  lemma SectionListing(accounts: seq<Account>, lines: seq<JournalLine>, t: AccountType, creditNormal: bool)
    ensures var items := Section(OfTypeByCode(accounts, t), lines, creditNormal);
      |items| == |Where(accounts, OfType(t))| &&
      (forall x :: x in items <==> exists a :: a in accounts && a.accountType == t && x == SectionItem(lines, a, creditNormal)) &&
      SortedBy(items, ReportItemKey, false)
  {
    var ordered := OfTypeByCode(accounts, t);
    SectionMembers(ordered, lines, creditNormal);
    WhereMembers(accounts, OfType(t));
    SortByMembers(Where(accounts, OfType(t)), CodeKey, false);
    assert forall a :: a in ordered <==> a in accounts && a.accountType == t;
  }

  /** An account without lines in the period shows 0. */
  lemma SectionItemWithoutLines(lines: seq<JournalLine>, a: Account, creditNormal: bool)
    requires !HasLines(lines, a.id)
    ensures SectionItem(lines, a, creditNormal).amount == 0.0
  {
    NoLinesNoSums(lines, a.id);
  }

  /** The net of the accounts of one type. */
  function TypeNet(accounts: seq<Account>, lines: seq<JournalLine>, t: AccountType): real
  {
    Sum(Where(accounts, OfType(t)), AccountBalance(lines))
  }

  lemma {:induction false} SectionSum(ordered: seq<Account>, lines: seq<JournalLine>, creditNormal: bool)
    ensures Sum(Section(ordered, lines, creditNormal), Amount) ==
              if creditNormal then -Sum(ordered, AccountBalance(lines)) else Sum(ordered, AccountBalance(lines))
  {
    if ordered != [] {
      SectionSum(ordered[1..], lines, creditNormal);
    }
  }

  /** A section's total is the net of the accounts of its type, negated in a
      credit-normal section. */
  lemma SectionTotal(accounts: seq<Account>, lines: seq<JournalLine>, t: AccountType, creditNormal: bool)
    ensures Sum(Section(OfTypeByCode(accounts, t), lines, creditNormal), Amount) ==
              if creditNormal then -TypeNet(accounts, lines, t) else TypeNet(accounts, lines, t)
  {
    SectionSum(OfTypeByCode(accounts, t), lines, creditNormal);
    SumPermutation(OfTypeByCode(accounts, t), Where(accounts, OfType(t)), AccountBalance(lines));
  }

  // ---------------------------------------------------------------------
  // The accounting equation

  /** Two selections that agree on every entry select the same lines. */
  lemma {:induction false} LinesOfKeep(entries: seq<JournalEntry>, keep: JournalEntry -> bool, other: JournalEntry -> bool, cc: Option<Guid>)
    requires forall i :: 0 <= i < |entries| ==> keep(entries[i]) == other(entries[i])
    ensures LinesOf(entries, keep, cc) == LinesOf(entries, other, cc)
  {
    if entries != [] {
      LinesOfKeep(entries[1..], keep, other, cc);
    }
  }

  /** The ids of the accounts, in chart order. */
  function Ids(accounts: seq<Account>): (r: seq<Guid>)
    ensures |r| == |accounts| && forall k :: 0 <= k < |r| ==> r[k] == accounts[k].id
  {
    if accounts == [] then [] else [accounts[0].id] + Ids(accounts[1..])
  }

  lemma {:induction false} SumOverIds(accounts: seq<Account>, lines: seq<JournalLine>)
    ensures Sum(accounts, AccountBalance(lines)) == Sum(Ids(accounts), AccountSum(lines, LineNet))
  {
    if accounts != [] {
      SumOverIds(accounts[1..], lines);
      assert Ids(accounts)[1..] == Ids(accounts[1..]);
    }
  }

  /** Over a chart that holds every line's account once, the balances of all
      accounts cancel when the lines balance. */
  lemma LedgerCancels(accounts: seq<Account>, lines: seq<JournalLine>)
    requires UniqueKeys(accounts, ChartOfAccounts.AccountKey)
    requires InChart(accounts, lines)
    requires Sum(lines, LineDebit) == Sum(lines, LineCredit)
    ensures Sum(accounts, AccountBalance(lines)) == 0.0
  {
    var ids := Ids(accounts);
    assert Distinct(ids) by {
      forall i, j | 0 <= i < j < |ids| ensures ids[i] != ids[j] {
        assert ChartOfAccounts.AccountKey(accounts[i]) != ChartOfAccounts.AccountKey(accounts[j]);
      }
    }
    forall k | 0 <= k < |lines| ensures lines[k].accountId in ids {
      var found := GetById(accounts, ChartOfAccounts.AccountKey, lines[k].accountId);
      var j :| 0 <= j < |accounts| && ChartOfAccounts.AccountKey(accounts[j]) == lines[k].accountId;
      assert ids[j] == lines[k].accountId;
    }
    SumOverIds(accounts, lines);
    SumByAccount(ids, lines, LineNet);
    SumDifference(lines, LineDebit, LineCredit, LineNet);
  }

  /** Every account has one of the five types: the sum over the chart is the
      sum of the sums over the types. */
  lemma {:induction false} SumByType(accounts: seq<Account>, f: Account -> real)
    ensures Sum(accounts, f) ==
              Sum(Where(accounts, OfType(Asset)), f) + Sum(Where(accounts, OfType(Liability)), f) +
              Sum(Where(accounts, OfType(Equity)), f) + Sum(Where(accounts, OfType(Revenue)), f) +
              Sum(Where(accounts, OfType(Expense)), f)
  {
    if accounts != [] {
      var a := accounts[0];
      var rest := accounts[1..];
      SumByType(rest, f);
      SumAppend(if a.accountType == Asset then [a] else [], Where(rest, OfType(Asset)), f);
      SumAppend(if a.accountType == Liability then [a] else [], Where(rest, OfType(Liability)), f);
      SumAppend(if a.accountType == Equity then [a] else [], Where(rest, OfType(Equity)), f);
      SumAppend(if a.accountType == Revenue then [a] else [], Where(rest, OfType(Revenue)), f);
      SumAppend(if a.accountType == Expense then [a] else [], Where(rest, OfType(Expense)), f);
    }
  }

  /** The accounting equation: with every entry balanced, no cost center and a
      chart that holds every posted line's account once, the assets equal the
      liabilities and equity plus the net income earned up to the same date. */
  lemma AccountingEquation(accounts: seq<Account>, entries: seq<JournalEntry>, centers: seq<CostCenter>, asOf: Ticks)
    requires UniqueKeys(accounts, ChartOfAccounts.AccountKey)
    requires forall i :: 0 <= i < |entries| ==> Sum(entries[i].lines, LineDebit) == Sum(entries[i].lines, LineCredit)
    requires InChart(accounts, LinesOf(entries, PostedBy(asOf), None))
    ensures var sheet := BalanceSheetOf(accounts, entries, centers, asOf, None);
      var income := IncomeStatementOf(accounts, entries, centers, 0, asOf, None);
      sheet.TotalAssets() == sheet.TotalLiabilitiesAndEquity() + income.NetIncome()
  {
    var lines := LinesOf(entries, PostedBy(asOf), None);
    LinesOfKeep(entries, PostedWithin(0, asOf), PostedBy(asOf), None);
    SectionTotal(accounts, lines, Asset, false);
    SectionTotal(accounts, lines, Liability, true);
    SectionTotal(accounts, lines, Equity, true);
    SectionTotal(accounts, lines, Revenue, true);
    SectionTotal(accounts, lines, Expense, false);
    BalancedLines(entries, PostedBy(asOf));
    LedgerCancels(accounts, lines);
    SumByType(accounts, AccountBalance(lines));
  }

  /** The items' differences add up to the accounts' nets. */
  lemma {:induction false} TrialItemsNet(ordered: seq<Account>, lines: seq<JournalLine>, level: int)
    ensures Sum(TrialItems(ordered, lines, level), ItemDiff) == Sum(ordered, AccountBalance(lines))
    decreases |ordered|
  {
    if ordered != [] {
      var n := |ordered| - 1;
      var a := ordered[n];
      TrialItemsNet(ordered[..n], lines, level);
      assert ordered == ordered[..n] + [a];
      SumAppend(ordered[..n], [a], AccountBalance(lines));
      SumAppend(TrialItems(ordered[..n], lines, level), ItemsFor(lines, level, a), ItemDiff);
      BalanceIsNet(lines, a.id);
      if !HasLines(lines, a.id) {
        NoLinesNoSums(lines, a.id);
      }
    }
  }

  /** With no level, no cost center and balanced entries over a chart that
      holds every posted line's account once, the report's debit balances
      equal its credit balances. */
  lemma TrialBalanceBalances(accounts: seq<Account>, entries: seq<JournalEntry>, centers: seq<CostCenter>, asOf: Ticks)
    requires UniqueKeys(accounts, ChartOfAccounts.AccountKey)
    requires forall i :: 0 <= i < |entries| ==> Sum(entries[i].lines, LineDebit) == Sum(entries[i].lines, LineCredit)
    requires InChart(accounts, LinesOf(entries, PostedBy(asOf), None))
    ensures var r := TrialBalanceOf(accounts, entries, centers, asOf, None, 0);
      r.TotalDebit() == r.TotalCredit()
  {
    var lines := LinesOf(entries, PostedBy(asOf), None);
    var chart := Where(accounts, UpToLevel(0));
    TrialBalanceAmounts(accounts, entries, centers, asOf, None, 0);
    TrialItemsNet(ByCode(chart), lines, 0);
    SumPermutation(ByCode(chart), chart, AccountBalance(lines));
    WhereAll(accounts, UpToLevel(0));
    BalancedLines(entries, PostedBy(asOf));
    LedgerCancels(accounts, lines);
  }

  // ---------------------------------------------------------------------
  // Cash flow statement

  /** CashFlowReportItem. */
  datatype CashFlowItem = CashFlowItem(description: string, amount: real)

  function CashAmount(i: CashFlowItem): real { i.amount }

  /** CashFlowReport, with its net properties. */
  datatype CashFlowReport = CashFlowReport(
    fromDate: Ticks,
    toDate: Ticks,
    costCenter: Option<CostCenter>,
    operating: seq<CashFlowItem>,
    investing: seq<CashFlowItem>,
    financing: seq<CashFlowItem>)
  {
    function NetOperatingCashFlow(): real { Sum(operating, CashAmount) }
    function NetInvestingCashFlow(): real { Sum(investing, CashAmount) }
    function NetFinancingCashFlow(): real { Sum(financing, CashAmount) }
    function NetCashFlow(): real { NetOperatingCashFlow() + NetInvestingCashFlow() + NetFinancingCashFlow() }
  }

  /** GenerateCashFlowStatementAsync(fromDate, toDate, costCenterId) as a
      value: the net income of the period, then fixed placeholder amounts. */
  function CashFlowOf(accounts: seq<Account>, entries: seq<JournalEntry>, centers: seq<CostCenter>,
                      from: Ticks, to: Ticks, cc: Option<Guid>): (r: CashFlowReport)
    ensures r.fromDate == from && r.toDate == to && r.costCenter == CenterOf(centers, cc)
    ensures r.operating != [] && r.operating[0].description == "Net Income"
    ensures r.operating[0].amount == IncomeStatementOf(accounts, entries, centers, from, to, cc).NetIncome()
    ensures r.NetCashFlow() == r.operating[0].amount + 1000.0
  {
    var income := IncomeStatementOf(accounts, entries, centers, from, to, cc);
    var operating := [CashFlowItem("Net Income", income.NetIncome()),
                      CashFlowItem("Increase/Decrease in Accounts Receivable", -5000.0),
                      CashFlowItem("Increase/Decrease in Inventory", -3000.0),
                      CashFlowItem("Increase/Decrease in Accounts Payable", 2000.0)];
    var investing := [CashFlowItem("Purchase of Property and Equipment", -10000.0),
                      CashFlowItem("Sale of Investments", 5000.0)];
    var financing := [CashFlowItem("Proceeds from Long-term Debt", 15000.0),
                      CashFlowItem("Payment of Dividends", -3000.0)];
    SumOfFour(operating[0], operating[1], operating[2], operating[3], CashAmount);
    SumOfTwo(investing[0], investing[1], CashAmount);
    SumOfTwo(financing[0], financing[1], CashAmount);
    CashFlowReport(from, to, CenterOf(centers, cc), operating, investing, financing)
  }

  /** GenerateCashFlowStatementAsync: the income statement of the same period
      and cost center, then the items added one by one. */
  method GenerateCashFlowStatement(accounts: seq<Account>, entries: seq<JournalEntry>, centers: seq<CostCenter>,
                                   from: Ticks, to: Ticks, cc: Option<Guid>) returns (report: CashFlowReport)
    ensures report == CashFlowOf(accounts, entries, centers, from, to, cc)
  {
    var costCenter := CenterOf(centers, cc);
    var operating: seq<CashFlowItem> := [];
    var investing: seq<CashFlowItem> := [];
    var financing: seq<CashFlowItem> := [];
    var incomeStatement := GenerateIncomeStatement(accounts, entries, centers, from, to, cc);
    operating := operating + [CashFlowItem("Net Income", incomeStatement.NetIncome())];
    operating := operating + [CashFlowItem("Increase/Decrease in Accounts Receivable", -5000.0)];
    operating := operating + [CashFlowItem("Increase/Decrease in Inventory", -3000.0)];
    operating := operating + [CashFlowItem("Increase/Decrease in Accounts Payable", 2000.0)];
    investing := investing + [CashFlowItem("Purchase of Property and Equipment", -10000.0)];
    investing := investing + [CashFlowItem("Sale of Investments", 5000.0)];
    financing := financing + [CashFlowItem("Proceeds from Long-term Debt", 15000.0)];
    financing := financing + [CashFlowItem("Payment of Dividends", -3000.0)];
    report := CashFlowReport(from, to, costCenter, operating, investing, financing);
  }

  lemma SumOfTwo<T>(a: T, b: T, f: T -> real)
    ensures Sum([a, b], f) == f(a) + f(b)
  {
    assert [a, b][1..] == [b];
    assert [b][1..] == [];
    assert Sum([b], f) == f(b) + Sum([], f);
  }

  lemma SumOfFour<T>(a: T, b: T, c: T, d: T, f: T -> real)
    ensures Sum([a, b, c, d], f) == f(a) + f(b) + f(c) + f(d)
  {
    assert [a, b, c, d][1..] == [b, c, d];
    assert [b, c, d][1..] == [c, d];
    SumOfTwo(c, d, f);
  }

  /** The statement does not look at the cash accounts: its only figure from
      the ledger is the period's net income, as the first operating item, and
      the fixed amounts add 1000 to it. */
  lemma CashFlowFigures(accounts: seq<Account>, entries: seq<JournalEntry>, centers: seq<CostCenter>,
                        from: Ticks, to: Ticks, cc: Option<Guid>)
    ensures var r := CashFlowOf(accounts, entries, centers, from, to, cc);
      var income := IncomeStatementOf(accounts, entries, centers, from, to, cc);
      |r.operating| == 4 && r.operating[0].amount == income.NetIncome() &&
      r.NetOperatingCashFlow() == income.NetIncome() - 6000.0 &&
      r.NetInvestingCashFlow() == -5000.0 &&
      r.NetFinancingCashFlow() == 12000.0 &&
      r.NetCashFlow() == income.NetIncome() + 1000.0 &&
      r.NetCashFlow() == Sum(r.operating + r.investing + r.financing, CashAmount)
  {
    var r := CashFlowOf(accounts, entries, centers, from, to, cc);
    SumOfFour(r.operating[0], r.operating[1], r.operating[2], r.operating[3], CashAmount);
    SumOfTwo(r.investing[0], r.investing[1], CashAmount);
    SumOfTwo(r.financing[0], r.financing[1], CashAmount);
    SumAppend(r.operating, r.investing, CashAmount);
    SumAppend(r.operating + r.investing, r.financing, CashAmount);
  }
}
