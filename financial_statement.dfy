// The statement service (Areas/Accounting/Services/FinancialStatementService.cs):
// the balance sheet, income statement and cash flow of a fiscal period, built
// from the trial balance of the period by matching each row's account code
// against configured numeric code ranges such as "1000-1999".

module FinancialStatements {
  import opened Wrappers
  import opened Text
  import opened DotNet
  import opened Ledger
  import opened Repository
  import opened TrialBalance
  import Catalog
  import PeriodManagement
  import Sorting

  // ---------------------------------------------------------------------
  // Code ranges

  /** The bounds of a range: it splits on '-' into exactly two parts that
      both parse as Int32; anything else is malformed. */
  function RangeBounds(range: string): (r: Option<(int, int)>)
    ensures r.Some? ==> InInt32(r.value.0) && InInt32(r.value.1)
  {
    var parts := SplitOn(range, '-');
    if |parts| == 2 && TryParseInt(parts[0]).Some? && TryParseInt(parts[1]).Some? then
      Some((TryParseInt(parts[0]).value, TryParseInt(parts[1]).value))
    else None
  }

  /** A well-formed range holds a code that parses as Int32 and lies between its bounds. */
  predicate InRange(code: string, range: string)
  {
    RangeBounds(range).Some? && TryParseInt(code).Some? &&
    RangeBounds(range).value.0 <= TryParseInt(code).value <= RangeBounds(range).value.1
  }

  predicate InRanges(code: string, ranges: seq<string>)
  {
    exists k :: 0 <= k < |ranges| && InRange(code, ranges[k])
  }

  /** IsInRange: true at the first range that holds the code; malformed
      ranges are skipped and a code that is not a number is in no range. */
  method IsInRange(code: string, ranges: seq<string>) returns (r: bool)
    ensures r == InRanges(code, ranges)
    ensures TryParseInt(code).None? ==> !r
  {
    for i := 0 to |ranges|
      invariant forall k :: 0 <= k < i ==> !InRange(code, ranges[k])
    {
      var parts := SplitOn(ranges[i], '-');
      if |parts| == 2 {
        var start := TryParseInt(parts[0]);
        var end := TryParseInt(parts[1]);
        if start.Some? && end.Some? {
          var parsed := TryParseInt(code);
          if parsed.Some? && parsed.value >= start.value && parsed.value <= end.value {
            return true;
          }
        }
      }
    }
    return false;
  }

  /** An element that fails the test does not change whether some element passes it. */
  lemma SkipFailing<T>(before: seq<T>, bad: T, after: seq<T>, p: T -> bool)
    requires !p(bad)
    ensures (exists k :: 0 <= k < |before + [bad] + after| && p((before + [bad] + after)[k])) <==>
            (exists k :: 0 <= k < |before + after| && p((before + after)[k]))
  {
    var with := before + [bad] + after;
    var without := before + after;
    if exists k :: 0 <= k < |with| && p(with[k]) {
      var k :| 0 <= k < |with| && p(with[k]);
      if k < |before| {
        assert without[k] == with[k];
      } else {
        assert without[k - 1] == with[k];
      }
    }
    if exists k :: 0 <= k < |without| && p(without[k]) {
      var k :| 0 <= k < |without| && p(without[k]);
      if k < |before| {
        assert with[k] == without[k];
      } else {
        assert with[k + 1] == without[k];
      }
    }
  }

  /** A malformed range in the list changes nothing. */
  lemma MalformedRangeSkipped(code: string, before: seq<string>, bad: string, after: seq<string>)
    requires RangeBounds(bad).None?
    ensures InRanges(code, before + [bad] + after) <==> InRanges(code, before + after)
  {
    var holds := (range: string) => InRange(code, range);
    SkipFailing(before, bad, after, holds);
    assert InRanges(code, before + [bad] + after) <==> exists k :: 0 <= k < |before + [bad] + after| && holds((before + [bad] + after)[k]);
    assert InRanges(code, before + after) <==> exists k :: 0 <= k < |before + after| && holds((before + after)[k]);
  }

  /** Two dash-free texts joined by '-' split back into the two. */
  lemma SplitRange(a: string, b: string)
    requires '-' !in a && '-' !in b
    ensures SplitOn(a + "-" + b, '-') == [a, b]
  {
    SplitAfterPiece(a, b, '-');
    SplitNoSeparator(b, '-');
  }

  /** The digits of a non-negative number hold no '-'. */
  lemma DigitsHaveNoDash(n: nat)
    ensures '-' !in ZeroPadded(n, 0)
  {
    ZeroPaddedDigits(n, 0);
    assert forall k :: 0 <= k < |ZeroPadded(n, 0)| ==> ZeroPadded(n, 0)[k] != '-';
  }

  /** A range written as two non-negative Int32 bounds joined by '-' reads
      back as those bounds. */
  lemma RangeBoundsRoundTrip(lo: int, hi: int)
    requires 0 <= lo && 0 <= hi && InInt32(lo) && InInt32(hi)
    ensures RangeBounds(FormatD(lo, 0) + "-" + FormatD(hi, 0)) == Some((lo, hi))
  {
    DigitsHaveNoDash(lo);
    DigitsHaveNoDash(hi);
    SplitRange(FormatD(lo, 0), FormatD(hi, 0));
    FormatParseRoundTrip(lo, 0);
    FormatParseRoundTrip(hi, 0);
  }

  /** A negative lower bound cannot be written: "-5-10" splits into three
      parts and is skipped as malformed. */
  lemma NegativeLowerBoundMalformed(lo: int, hi: int)
    requires lo < 0 && 0 <= hi
    ensures RangeBounds(FormatD(lo, 0) + "-" + FormatD(hi, 0)).None?
  {
    var a, b := ZeroPadded(-lo, 0), FormatD(hi, 0);
    DigitsHaveNoDash(-lo);
    DigitsHaveNoDash(hi);
    assert FormatD(lo, 0) + "-" + b == [] + ['-'] + (a + "-" + b);
    SplitAfterPiece([], a + "-" + b, '-');
    SplitRange(a, b);
  }

  // ---------------------------------------------------------------------
  // The first-match chain

  /** Whether each range list of the chain holds the code. */
  function Hits(code: string, chain: seq<seq<string>>): (h: seq<bool>)
    ensures |h| == |chain| && forall k :: 0 <= k < |h| ==> h[k] == InRanges(code, chain[k])
  {
    seq(|chain|, k requires 0 <= k < |chain| => InRanges(code, chain[k]))
  }

  /** The index of the first true entry. */
  function FirstTrue(h: seq<bool>): (r: Option<nat>)
    ensures r.Some? ==> r.value < |h| && h[r.value] && forall j :: 0 <= j < r.value ==> !h[j]
    ensures r.None? <==> forall j :: 0 <= j < |h| ==> !h[j]
  {
    if h == [] then None
    else if h[0] then Some(0)
    else match FirstTrue(h[1..])
      case None => None
      case Some(j) => Some(j + 1)
  }

  /** The index of the first range list that holds the code, as the
      if / else-if chains over the mapping's lists do. */
  function FirstMatch(code: string, chain: seq<seq<string>>): (r: Option<nat>)
    ensures r.Some? ==> r.value < |chain| && InRanges(code, chain[r.value]) &&
                        forall j :: 0 <= j < r.value ==> !InRanges(code, chain[j])
    ensures r.None? <==> forall j :: 0 <= j < |chain| ==> !InRanges(code, chain[j])
  {
    FirstTrue(Hits(code, chain))
  }

  /** One pass of the if / else-if chain: IsInRange on each list in turn
      until one holds the code. */
  method FindBucket(code: string, chain: seq<seq<string>>) returns (r: Option<nat>)
    ensures r == FirstMatch(code, chain)
  {
    for j := 0 to |chain|
      invariant forall i :: 0 <= i < j ==> !InRanges(code, chain[i])
    {
      var hit := IsInRange(code, chain[j]);
      if hit {
        FirstMatchAt(code, chain, j);
        return Some(j);
      }
    }
    return None;
  }

  /** The first list that holds the code is the one FirstMatch names. */
  lemma FirstMatchAt(code: string, chain: seq<seq<string>>, j: nat)
    requires j < |chain| && InRanges(code, chain[j])
    requires forall i :: 0 <= i < j ==> !InRanges(code, chain[i])
    ensures FirstMatch(code, chain) == Some(j)
  {
    var h := Hits(code, chain);
    assert h[j];
    assert forall i :: 0 <= i < j ==> !h[i];
    FirstTrueAt(h, j);
  }

  lemma FirstTrueAt(h: seq<bool>, j: nat)
    requires j < |h| && h[j] && forall i :: 0 <= i < j ==> !h[i]
    ensures FirstTrue(h) == Some(j)
  {
  }

  /** AccountBalance. */
  datatype AccountBalance = AccountBalance(code: string, nameEn: string, balance: real)

  function Balance(b: AccountBalance): real { b.balance }

  /** MapToAccountBalance: the row's code, name and net. */
  function MapToAccountBalance(row: TrialBalanceRow): AccountBalance
  {
    AccountBalance(row.accountCode, row.accountName, row.net)
  }

  /** The list a row goes to: the first that holds its code. */
  function Placement(chain: seq<seq<string>>): TrialBalanceRow -> Option<nat>
  {
    (r: TrialBalanceRow) => FirstMatch(r.accountCode, chain)
  }

  function InBucket(place: TrialBalanceRow -> Option<nat>, j: nat): TrialBalanceRow -> bool
  {
    (r: TrialBalanceRow) => place(r) == Some(j)
  }

  /** The rows whose list has an index in [lo, hi). */
  function InBuckets(place: TrialBalanceRow -> Option<nat>, lo: nat, hi: nat): TrialBalanceRow -> bool
  {
    (r: TrialBalanceRow) => place(r).Some? && lo <= place(r).value < hi
  }

  /** The balances the foreach adds to list `j`, in trial-balance order. */
  function Bucket(rows: seq<TrialBalanceRow>, place: TrialBalanceRow -> Option<nat>, j: nat): seq<AccountBalance>
  {
    if rows == [] then []
    else (if place(rows[0]) == Some(j) then [MapToAccountBalance(rows[0])] else []) + Bucket(rows[1..], place, j)
  }

  lemma {:induction false} BucketAppend(a: seq<TrialBalanceRow>, b: seq<TrialBalanceRow>, place: TrialBalanceRow -> Option<nat>, j: nat)
    ensures Bucket(a + b, place, j) == Bucket(a, place, j) + Bucket(b, place, j)
  {
    if a == [] {
      assert a + b == b;
    } else {
      var head := if place(a[0]) == Some(j) then [MapToAccountBalance(a[0])] else [];
      assert (a + b)[0] == a[0] && (a + b)[1..] == a[1..] + b;
      assert Bucket(a + b, place, j) == head + Bucket(a[1..] + b, place, j);
      BucketAppend(a[1..], b, place, j);
      assert Bucket(a, place, j) == head + Bucket(a[1..], place, j);
    }
  }

  /** One more row adds its balance to its own list only. */
  lemma BucketStep(rows: seq<TrialBalanceRow>, i: nat, place: TrialBalanceRow -> Option<nat>, j: nat)
    requires i < |rows|
    ensures Bucket(rows[..i + 1], place, j) ==
              Bucket(rows[..i], place, j) + if place(rows[i]) == Some(j) then [MapToAccountBalance(rows[i])] else []
  {
    assert rows[..i + 1] == rows[..i] + [rows[i]];
    BucketAppend(rows[..i], [rows[i]], place, j);
  }

  /** The foreach over the trial balance: each row goes to the list of the
      first range list that holds its code, and rows no list holds are dropped. */
  method Distribute(rows: seq<TrialBalanceRow>, chain: seq<seq<string>>) returns (buckets: seq<seq<AccountBalance>>)
    ensures |buckets| == |chain| && forall j :: 0 <= j < |chain| ==> buckets[j] == Bucket(rows, Placement(chain), j)
  {
    var place := Placement(chain);
    buckets := seq(|chain|, _ => []);
    for i := 0 to |rows|
      invariant |buckets| == |chain| && forall j :: 0 <= j < |chain| ==> buckets[j] == Bucket(rows[..i], place, j)
    {
      var row := rows[i];
      var target := FindBucket(row.accountCode, chain);
      assert target == place(row);
      forall j | 0 <= j < |chain| {
        BucketStep(rows, i, place, j);
      }
      if target.Some? {
        buckets := buckets[target.value := buckets[target.value] + [MapToAccountBalance(row)]];
      }
    }
    assert rows[..|rows|] == rows;
  }

  /** A list holds the balance of every row whose first matching list it is,
      and nothing else: a row goes to one list at most, and a row no list
      holds goes to none. */
  lemma {:induction false} BucketMembers(rows: seq<TrialBalanceRow>, place: TrialBalanceRow -> Option<nat>, j: nat)
    ensures forall x :: x in Bucket(rows, place, j) <==>
              exists k :: 0 <= k < |rows| && place(rows[k]) == Some(j) && x == MapToAccountBalance(rows[k])
  {
    if rows != [] {
      BucketMembers(rows[1..], place, j);
      forall x | x in Bucket(rows[1..], place, j)
        ensures exists k :: 0 <= k < |rows| && place(rows[k]) == Some(j) && x == MapToAccountBalance(rows[k])
      {
        var k :| 0 <= k < |rows[1..]| && place(rows[1..][k]) == Some(j) && x == MapToAccountBalance(rows[1..][k]);
        assert rows[k + 1] == rows[1..][k];
      }
      forall k | 0 <= k < |rows| && place(rows[k]) == Some(j)
        ensures MapToAccountBalance(rows[k]) in Bucket(rows, place, j)
      {
        if k > 0 {
          assert rows[1..][k - 1] == rows[k];
        }
      }
    }
  }

  /** A list's total is the sum of the nets of its rows. */
  lemma {:induction false} BucketSum(rows: seq<TrialBalanceRow>, place: TrialBalanceRow -> Option<nat>, j: nat)
    ensures Sum(Bucket(rows, place, j), Balance) == Sum(Where(rows, InBucket(place, j)), RowNet)
  {
    if rows != [] {
      BucketSum(rows[1..], place, j);
      var p := InBucket(place, j);
      SumAppend(if p(rows[0]) then [MapToAccountBalance(rows[0])] else [], Bucket(rows[1..], place, j), Balance);
      SumAppend(if p(rows[0]) then [rows[0]] else [], Where(rows[1..], p), RowNet);
    }
  }

  /** Summing over the rows of a union of two disjoint selections. */
  lemma {:induction false} SumWhereSplit<T>(s: seq<T>, p: T -> bool, q: T -> bool, r: T -> bool, f: T -> real)
    requires forall k :: 0 <= k < |s| ==> (p(s[k]) <==> q(s[k]) || r(s[k]))
    requires forall k :: 0 <= k < |s| ==> !(q(s[k]) && r(s[k]))
    ensures Sum(Where(s, p), f) == Sum(Where(s, q), f) + Sum(Where(s, r), f)
  {
    if s != [] {
      SumWhereSplit(s[1..], p, q, r, f);
      var x := s[0];
      SumAppend(if p(x) then [x] else [], Where(s[1..], p), f);
      SumAppend(if q(x) then [x] else [], Where(s[1..], q), f);
      SumAppend(if r(x) then [x] else [], Where(s[1..], r), f);
    }
  }

  /** The rows of the lists in [lo, hi) are those of [lo, mid) and those of [mid, hi). */
  lemma BucketsUnion(rows: seq<TrialBalanceRow>, place: TrialBalanceRow -> Option<nat>, lo: nat, mid: nat, hi: nat)
    requires lo <= mid <= hi
    ensures Sum(Where(rows, InBuckets(place, lo, hi)), RowNet) ==
              Sum(Where(rows, InBuckets(place, lo, mid)), RowNet) + Sum(Where(rows, InBuckets(place, mid, hi)), RowNet)
  {
    SumWhereSplit(rows, InBuckets(place, lo, hi), InBuckets(place, lo, mid), InBuckets(place, mid, hi), RowNet);
  }

  /** The rows of the lists in [j, j + 1) are those of list j. The indices
      are passed one by one so that callers name them as literals. */
  lemma BucketsOne(rows: seq<TrialBalanceRow>, place: TrialBalanceRow -> Option<nat>, j: nat, hi: nat)
    requires hi == j + 1
    ensures Where(rows, InBuckets(place, j, hi)) == Where(rows, InBucket(place, j))
  {
    Catalog.WhereSame(rows, InBuckets(place, j, hi), InBucket(place, j));
  }

  lemma BucketsTwo(rows: seq<TrialBalanceRow>, place: TrialBalanceRow -> Option<nat>, j: nat, k: nat, hi: nat)
    requires k == j + 1 && hi == k + 1
    ensures Sum(Where(rows, InBuckets(place, j, hi)), RowNet) ==
              Sum(Where(rows, InBucket(place, j)), RowNet) + Sum(Where(rows, InBucket(place, k)), RowNet)
  {
    BucketsUnion(rows, place, j, k, hi);
    BucketsOne(rows, place, j, k);
    BucketsOne(rows, place, k, hi);
  }

  lemma BucketsThree(rows: seq<TrialBalanceRow>, place: TrialBalanceRow -> Option<nat>, j: nat, k: nat, l: nat, hi: nat)
    requires k == j + 1 && l == k + 1 && hi == l + 1
    ensures Sum(Where(rows, InBuckets(place, j, hi)), RowNet) ==
              Sum(Where(rows, InBucket(place, j)), RowNet) + Sum(Where(rows, InBucket(place, k)), RowNet) +
              Sum(Where(rows, InBucket(place, l)), RowNet)
  {
    BucketsUnion(rows, place, j, k, hi);
    BucketsOne(rows, place, j, k);
    BucketsTwo(rows, place, k, l, hi);
  }

  // ---------------------------------------------------------------------
  // The mapping

  datatype AssetsMapping = AssetsMapping(fixedAssets: seq<string>, currentAssets: seq<string>, otherAssets: seq<string>)

  datatype LiabilitiesMapping = LiabilitiesMapping(longTermLiabilities: seq<string>, currentLiabilities: seq<string>)

  datatype BalanceSheetMapping = BalanceSheetMapping(assets: AssetsMapping, liabilities: LiabilitiesMapping, equity: seq<string>)

  datatype IncomeStatementMapping = IncomeStatementMapping(
    revenue: seq<string>,
    costOfSales: seq<string>,
    operatingExpenses: seq<string>,
    otherIncomeExpense: seq<string>,
    taxExpense: seq<string>)

  datatype OperatingActivitiesMapping = OperatingActivitiesMapping(adjustments: seq<string>, changesInWorkingCapital: seq<string>)

  datatype CashFlowMapping = CashFlowMapping(
    operatingActivities: OperatingActivitiesMapping,
    investingActivities: seq<string>,
    financingActivities: seq<string>)

  /** StatementMapping, the configured code ranges. */
  datatype StatementMapping = StatementMapping(
    balanceSheet: BalanceSheetMapping,
    incomeStatement: IncomeStatementMapping,
    cashFlow: CashFlowMapping)

  /** The balance-sheet chain: fixed, current and other assets, long-term and
      current liabilities, equity (lists 0 to 5). */
  function BalanceSheetChain(m: BalanceSheetMapping): seq<seq<string>>
  {
    [m.assets.fixedAssets, m.assets.currentAssets, m.assets.otherAssets,
     m.liabilities.longTermLiabilities, m.liabilities.currentLiabilities, m.equity]
  }

  /** The income-statement chain: revenue, cost of sales, operating expenses,
      other income and expense, tax expense (lists 0 to 4). */
  function IncomeStatementChain(m: IncomeStatementMapping): seq<seq<string>>
  {
    [m.revenue, m.costOfSales, m.operatingExpenses, m.otherIncomeExpense, m.taxExpense]
  }

  // ---------------------------------------------------------------------
  // Balance sheet

  datatype AssetsSection = AssetsSection(
    fixedAssets: seq<AccountBalance>,
    currentAssets: seq<AccountBalance>,
    otherAssets: seq<AccountBalance>,
    totalFixedAssets: real,
    totalCurrentAssets: real,
    totalOtherAssets: real)

  datatype LiabilitiesSection = LiabilitiesSection(
    longTermLiabilities: seq<AccountBalance>,
    currentLiabilities: seq<AccountBalance>,
    totalLongTermLiabilities: real,
    totalCurrentLiabilities: real)

  datatype EquitySection = EquitySection(equityAccounts: seq<AccountBalance>, totalEquity: real)

  /** BalanceSheetDTO. */
  datatype BalanceSheetDto = BalanceSheetDto(
    assets: AssetsSection,
    liabilities: LiabilitiesSection,
    equity: EquitySection,
    totalAssets: real,
    totalLiabilities: real,
    totalEquity: real,
    totalLiabilitiesAndEquity: real)

  /** The balance sheet of some trial-balance rows; the equity section's own
      total is never assigned and keeps its default 0. */
  function BalanceSheetOf(rows: seq<TrialBalanceRow>, m: BalanceSheetMapping): BalanceSheetDto
  {
    SheetOf(rows, Placement(BalanceSheetChain(m)))
  }

  /** The sheet of rows placed in the six lists. */
  function SheetOf(rows: seq<TrialBalanceRow>, place: TrialBalanceRow -> Option<nat>): (r: BalanceSheetDto)
    ensures r.assets.totalFixedAssets == Sum(r.assets.fixedAssets, Balance)
    ensures r.assets.totalCurrentAssets == Sum(r.assets.currentAssets, Balance)
    ensures r.assets.totalOtherAssets == Sum(r.assets.otherAssets, Balance)
    ensures r.liabilities.totalLongTermLiabilities == Sum(r.liabilities.longTermLiabilities, Balance)
    ensures r.liabilities.totalCurrentLiabilities == Sum(r.liabilities.currentLiabilities, Balance)
    ensures r.totalEquity == Sum(r.equity.equityAccounts, Balance) && r.equity.totalEquity == 0.0
    ensures r.totalLiabilitiesAndEquity == r.totalLiabilities + r.totalEquity
  {
    var fixed := Bucket(rows, place, 0);
    var current := Bucket(rows, place, 1);
    var other := Bucket(rows, place, 2);
    var longTerm := Bucket(rows, place, 3);
    var currentLiabilities := Bucket(rows, place, 4);
    var equity := Bucket(rows, place, 5);
    var assets := AssetsSection(fixed, current, other, Sum(fixed, Balance), Sum(current, Balance), Sum(other, Balance));
    var liabilities := LiabilitiesSection(longTerm, currentLiabilities, Sum(longTerm, Balance), Sum(currentLiabilities, Balance));
    var totalLiabilities := liabilities.totalLongTermLiabilities + liabilities.totalCurrentLiabilities;
    BalanceSheetDto(assets, liabilities, EquitySection(equity, 0.0),
                    assets.totalFixedAssets + assets.totalCurrentAssets + assets.totalOtherAssets,
                    totalLiabilities, Sum(equity, Balance), totalLiabilities + Sum(equity, Balance))
  }

  /** The foreach and the totals of GetBalanceSheetAsync. */
  method BuildBalanceSheet(rows: seq<TrialBalanceRow>, m: BalanceSheetMapping) returns (sheet: BalanceSheetDto)
    ensures sheet == BalanceSheetOf(rows, m)
  {
    var lists := Distribute(rows, BalanceSheetChain(m));
    var assets := AssetsSection(lists[0], lists[1], lists[2], 0.0, 0.0, 0.0);
    var liabilities := LiabilitiesSection(lists[3], lists[4], 0.0, 0.0);
    var equity := EquitySection(lists[5], 0.0);
    assets := assets.(totalFixedAssets := Sum(assets.fixedAssets, Balance),
                      totalCurrentAssets := Sum(assets.currentAssets, Balance),
                      totalOtherAssets := Sum(assets.otherAssets, Balance));
    var totalAssets := assets.totalFixedAssets + assets.totalCurrentAssets + assets.totalOtherAssets;
    liabilities := liabilities.(totalLongTermLiabilities := Sum(liabilities.longTermLiabilities, Balance),
                                totalCurrentLiabilities := Sum(liabilities.currentLiabilities, Balance));
    var totalLiabilities := liabilities.totalLongTermLiabilities + liabilities.totalCurrentLiabilities;
    var totalEquity := Sum(equity.equityAccounts, Balance);
    sheet := BalanceSheetDto(assets, liabilities, equity, totalAssets, totalLiabilities, totalEquity, totalLiabilities + totalEquity);
  }

  /** Each total of the sheet is the sum of the nets of the rows its lists
      took: assets lists 0-2, liabilities lists 3-4, equity list 5; so assets
      plus liabilities and equity is the net of every row some list holds. */
  lemma BalanceSheetTotals(rows: seq<TrialBalanceRow>, m: BalanceSheetMapping)
    ensures var s := BalanceSheetOf(rows, m);
      var place := Placement(BalanceSheetChain(m));
      s.assets.totalFixedAssets == Sum(Where(rows, InBucket(place, 0)), RowNet) &&
      s.assets.totalCurrentAssets == Sum(Where(rows, InBucket(place, 1)), RowNet) &&
      s.assets.totalOtherAssets == Sum(Where(rows, InBucket(place, 2)), RowNet) &&
      s.liabilities.totalLongTermLiabilities == Sum(Where(rows, InBucket(place, 3)), RowNet) &&
      s.liabilities.totalCurrentLiabilities == Sum(Where(rows, InBucket(place, 4)), RowNet) &&
      s.totalAssets == Sum(Where(rows, InBuckets(place, 0, 3)), RowNet) &&
      s.totalLiabilities == Sum(Where(rows, InBuckets(place, 3, 5)), RowNet) &&
      s.totalEquity == Sum(Where(rows, InBucket(place, 5)), RowNet) &&
      s.totalLiabilitiesAndEquity == s.totalLiabilities + s.totalEquity &&
      s.totalAssets + s.totalLiabilitiesAndEquity == Sum(Where(rows, InBuckets(place, 0, 6)), RowNet) &&
      s.equity.totalEquity == 0.0
  {
    SheetTotals(rows, Placement(BalanceSheetChain(m)));
  }

  lemma SheetTotals(rows: seq<TrialBalanceRow>, place: TrialBalanceRow -> Option<nat>)
    ensures var s := SheetOf(rows, place);
      s.assets.totalFixedAssets == Sum(Where(rows, InBucket(place, 0)), RowNet) &&
      s.assets.totalCurrentAssets == Sum(Where(rows, InBucket(place, 1)), RowNet) &&
      s.assets.totalOtherAssets == Sum(Where(rows, InBucket(place, 2)), RowNet) &&
      s.liabilities.totalLongTermLiabilities == Sum(Where(rows, InBucket(place, 3)), RowNet) &&
      s.liabilities.totalCurrentLiabilities == Sum(Where(rows, InBucket(place, 4)), RowNet) &&
      s.totalAssets == Sum(Where(rows, InBuckets(place, 0, 3)), RowNet) &&
      s.totalLiabilities == Sum(Where(rows, InBuckets(place, 3, 5)), RowNet) &&
      s.totalEquity == Sum(Where(rows, InBucket(place, 5)), RowNet) &&
      s.totalLiabilitiesAndEquity == s.totalLiabilities + s.totalEquity &&
      s.totalAssets + s.totalLiabilitiesAndEquity == Sum(Where(rows, InBuckets(place, 0, 6)), RowNet) &&
      s.equity.totalEquity == 0.0
  {
    SheetAssets(rows, place);
    SheetLiabilities(rows, place);
    SheetEquity(rows, place);
    BucketsUnion(rows, place, 0, 3, 6);
    BucketsUnion(rows, place, 3, 5, 6);
  }

  lemma SheetAssets(rows: seq<TrialBalanceRow>, place: TrialBalanceRow -> Option<nat>)
    ensures var s := SheetOf(rows, place);
      s.assets.totalFixedAssets == Sum(Where(rows, InBucket(place, 0)), RowNet) &&
      s.assets.totalCurrentAssets == Sum(Where(rows, InBucket(place, 1)), RowNet) &&
      s.assets.totalOtherAssets == Sum(Where(rows, InBucket(place, 2)), RowNet) &&
      s.totalAssets == Sum(Where(rows, InBuckets(place, 0, 3)), RowNet)
  {
    var s := SheetOf(rows, place);
    assert s.totalAssets == s.assets.totalFixedAssets + s.assets.totalCurrentAssets + s.assets.totalOtherAssets;
    BucketSum(rows, place, 0);
    BucketSum(rows, place, 1);
    BucketSum(rows, place, 2);
    BucketsThree(rows, place, 0, 1, 2, 3);
  }

  lemma SheetLiabilities(rows: seq<TrialBalanceRow>, place: TrialBalanceRow -> Option<nat>)
    ensures var s := SheetOf(rows, place);
      s.liabilities.totalLongTermLiabilities == Sum(Where(rows, InBucket(place, 3)), RowNet) &&
      s.liabilities.totalCurrentLiabilities == Sum(Where(rows, InBucket(place, 4)), RowNet) &&
      s.totalLiabilities == Sum(Where(rows, InBuckets(place, 3, 5)), RowNet)
  {
    BucketSum(rows, place, 3);
    BucketSum(rows, place, 4);
    BucketsTwo(rows, place, 3, 4, 5);
  }

  lemma SheetEquity(rows: seq<TrialBalanceRow>, place: TrialBalanceRow -> Option<nat>)
    ensures var s := SheetOf(rows, place);
      s.totalEquity == Sum(Where(rows, InBucket(place, 5)), RowNet) &&
      s.totalEquity == Sum(Where(rows, InBuckets(place, 5, 6)), RowNet) &&
      s.totalLiabilitiesAndEquity == s.totalLiabilities + s.totalEquity &&
      s.equity.totalEquity == 0.0
  {
    BucketSum(rows, place, 5);
    BucketsOne(rows, place, 5, 6);
  }

  // ---------------------------------------------------------------------
  // Income statement

  datatype RevenueSection = RevenueSection(revenueAccounts: seq<AccountBalance>, totalRevenue: real)

  datatype ExpensesSection = ExpensesSection(
    costOfSales: seq<AccountBalance>,
    operatingExpenses: seq<AccountBalance>,
    otherIncomeExpense: seq<AccountBalance>,
    taxExpense: seq<AccountBalance>,
    totalCostOfSales: real,
    totalOperatingExpenses: real,
    totalOtherIncomeExpense: real,
    totalTaxExpense: real)

  /** IncomeStatementDTO. */
  datatype IncomeStatementDto = IncomeStatementDto(
    revenue: RevenueSection,
    expenses: ExpensesSection,
    totalRevenue: real,
    totalExpenses: real,
    netIncome: real)

  /** The income statement of some trial-balance rows; the revenue section's
      own total is never assigned and keeps its default 0. */
  function IncomeStatementOf(rows: seq<TrialBalanceRow>, m: IncomeStatementMapping): (r: IncomeStatementDto)
    ensures r.totalRevenue == Sum(r.revenue.revenueAccounts, Balance) && r.revenue.totalRevenue == 0.0
    ensures r.totalExpenses == r.expenses.totalCostOfSales + r.expenses.totalOperatingExpenses +
                               r.expenses.totalOtherIncomeExpense + r.expenses.totalTaxExpense
    ensures r.netIncome == r.totalRevenue - r.totalExpenses
  {
    var place := Placement(IncomeStatementChain(m));
    var revenue := Bucket(rows, place, 0);
    var expenses := ExpensesSection(Bucket(rows, place, 1), Bucket(rows, place, 2), Bucket(rows, place, 3), Bucket(rows, place, 4),
                                    Sum(Bucket(rows, place, 1), Balance), Sum(Bucket(rows, place, 2), Balance),
                                    Sum(Bucket(rows, place, 3), Balance), Sum(Bucket(rows, place, 4), Balance));
    var totalExpenses := expenses.totalCostOfSales + expenses.totalOperatingExpenses + expenses.totalOtherIncomeExpense + expenses.totalTaxExpense;
    IncomeStatementDto(RevenueSection(revenue, 0.0), expenses, Sum(revenue, Balance), totalExpenses, Sum(revenue, Balance) - totalExpenses)
  }

  /** The foreach and the totals of GetIncomeStatementAsync. */
  method BuildIncomeStatement(rows: seq<TrialBalanceRow>, m: IncomeStatementMapping) returns (statement: IncomeStatementDto)
    ensures statement == IncomeStatementOf(rows, m)
  {
    var lists := Distribute(rows, IncomeStatementChain(m));
    var revenue := RevenueSection(lists[0], 0.0);
    var expenses := ExpensesSection(lists[1], lists[2], lists[3], lists[4], 0.0, 0.0, 0.0, 0.0);
    var totalRevenue := Sum(revenue.revenueAccounts, Balance);
    expenses := expenses.(totalCostOfSales := Sum(expenses.costOfSales, Balance),
                          totalOperatingExpenses := Sum(expenses.operatingExpenses, Balance),
                          totalOtherIncomeExpense := Sum(expenses.otherIncomeExpense, Balance),
                          totalTaxExpense := Sum(expenses.taxExpense, Balance));
    var totalExpenses := expenses.totalCostOfSales + expenses.totalOperatingExpenses + expenses.totalOtherIncomeExpense + expenses.totalTaxExpense;
    statement := IncomeStatementDto(revenue, expenses, totalRevenue, totalExpenses, totalRevenue - totalExpenses);
  }

  /** The revenue total is the net of the rows of list 0, the expenses the net
      of the rows of lists 1-4, and the net income their difference. */
  lemma IncomeStatementTotals(rows: seq<TrialBalanceRow>, m: IncomeStatementMapping)
    ensures var s := IncomeStatementOf(rows, m);
      var place := Placement(IncomeStatementChain(m));
      s.totalRevenue == Sum(Where(rows, InBucket(place, 0)), RowNet) &&
      s.expenses.totalCostOfSales == Sum(Where(rows, InBucket(place, 1)), RowNet) &&
      s.expenses.totalOperatingExpenses == Sum(Where(rows, InBucket(place, 2)), RowNet) &&
      s.expenses.totalOtherIncomeExpense == Sum(Where(rows, InBucket(place, 3)), RowNet) &&
      s.expenses.totalTaxExpense == Sum(Where(rows, InBucket(place, 4)), RowNet) &&
      s.totalExpenses == Sum(Where(rows, InBuckets(place, 1, 5)), RowNet) &&
      s.netIncome == Sum(Where(rows, InBucket(place, 0)), RowNet) - Sum(Where(rows, InBuckets(place, 1, 5)), RowNet) &&
      s.revenue.totalRevenue == 0.0
  {
    var place := Placement(IncomeStatementChain(m));
    forall j | 0 <= j < 5 ensures Sum(Bucket(rows, place, j), Balance) == Sum(Where(rows, InBucket(place, j)), RowNet) {
      BucketSum(rows, place, j);
    }
    BucketsUnion(rows, place, 1, 3, 5);
    BucketsTwo(rows, place, 1, 2, 3);
    BucketsTwo(rows, place, 3, 4, 5);
  }

  // ---------------------------------------------------------------------
  // Cash flow

  /** CashFlowItem. */
  datatype CashFlowItem = CashFlowItem(description: string, amount: real)

  function Amount(i: CashFlowItem): real { i.amount }

  datatype OperatingActivitiesSection = OperatingActivitiesSection(
    netIncome: real,
    adjustments: seq<CashFlowItem>,
    changesInWorkingCapital: seq<CashFlowItem>,
    totalAdjustments: real,
    totalChangesInWorkingCapital: real)

  datatype InvestingActivitiesSection = InvestingActivitiesSection(items: seq<CashFlowItem>, totalInvesting: real)

  datatype FinancingActivitiesSection = FinancingActivitiesSection(items: seq<CashFlowItem>, totalFinancing: real)

  /** CashFlowDTO. */
  datatype CashFlowDto = CashFlowDto(
    operatingActivities: OperatingActivitiesSection,
    investingActivities: InvestingActivitiesSection,
    financingActivities: FinancingActivitiesSection,
    netCashFromOperating: real,
    netCashFromInvesting: real,
    netCashFromFinancing: real,
    netIncreaseInCash: real,
    cashAtBeginning: real,
    cashAtEnd: real)

  function InRangesRow(ranges: seq<string>): TrialBalanceRow -> bool
  {
    (r: TrialBalanceRow) => InRanges(r.accountCode, ranges)
  }

  lemma InRangesRowAt(ranges: seq<string>, row: TrialBalanceRow)
    ensures InRangesRow(ranges)(row) == InRanges(row.accountCode, ranges)
  {
  }

  /** `Where(r => IsInRange(r.AccountCode, ranges)).Sum(r => r.Net)`. */
  function NetIn(rows: seq<TrialBalanceRow>, ranges: seq<string>): real
  {
    Sum(Where(rows, InRangesRow(ranges)), RowNet)
  }

  /** The items a foreach over the rows adds for the rows in the ranges: the
      account name with the net, or with its negation. */
  function RangeItems(rows: seq<TrialBalanceRow>, sel: TrialBalanceRow -> bool, negate: bool): seq<CashFlowItem>
  {
    if rows == [] then []
    else
      (if sel(rows[0])
       then [CashFlowItem(rows[0].accountName, if negate then -rows[0].net else rows[0].net)]
       else []) + RangeItems(rows[1..], sel, negate)
  }

  lemma {:induction false} RangeItemsAppend(a: seq<TrialBalanceRow>, b: seq<TrialBalanceRow>, sel: TrialBalanceRow -> bool, negate: bool)
    ensures RangeItems(a + b, sel, negate) == RangeItems(a, sel, negate) + RangeItems(b, sel, negate)
  {
    if a == [] {
      assert a + b == b;
    } else {
      assert (a + b)[0] == a[0] && (a + b)[1..] == a[1..] + b;
      RangeItemsAppend(a[1..], b, sel, negate);
      var head := if sel(a[0]) then [CashFlowItem(a[0].accountName, if negate then -a[0].net else a[0].net)] else [];
      assert RangeItems(a + b, sel, negate) == head + RangeItems(a[1..] + b, sel, negate);
      assert RangeItems(a, sel, negate) == head + RangeItems(a[1..], sel, negate);
    }
  }

  lemma RangeItemsStep(rows: seq<TrialBalanceRow>, i: nat, sel: TrialBalanceRow -> bool, negate: bool, hit: bool)
    requires i < |rows| && hit == sel(rows[i])
    ensures RangeItems(rows[..i + 1], sel, negate) == RangeItems(rows[..i], sel, negate) +
              if hit then [CashFlowItem(rows[i].accountName, if negate then -rows[i].net else rows[i].net)] else []
  {
    assert rows[..i + 1] == rows[..i] + [rows[i]];
    RangeItemsAppend(rows[..i], [rows[i]], sel, negate);
  }

  /** One pass of those loops: the row's item is added when its code is in the ranges. */
  method AddRangeItem(row: TrialBalanceRow, ranges: seq<string>, negate: bool, items: seq<CashFlowItem>)
    returns (next: seq<CashFlowItem>)
    ensures next == items + if InRanges(row.accountCode, ranges)
      then [CashFlowItem(row.accountName, if negate then -row.net else row.net)] else []
  {
    var hit := IsInRange(row.accountCode, ranges);
    next := items;
    if hit {
      next := items + [CashFlowItem(row.accountName, if negate then -row.net else row.net)];
    }
  }

  /** The same pass, stated over the rows seen so far. */
  method AddRangeItemAt(rows: seq<TrialBalanceRow>, ranges: seq<string>, negate: bool, i: nat, items: seq<CashFlowItem>)
    returns (next: seq<CashFlowItem>)
    requires i < |rows| && items == RangeItems(rows[..i], InRangesRow(ranges), negate)
    ensures next == RangeItems(rows[..i + 1], InRangesRow(ranges), negate)
  {
    next := AddRangeItem(rows[i], ranges, negate, items);
    InRangesRowAt(ranges, rows[i]);
    RangeItemsStep(rows, i, InRangesRow(ranges), negate, InRanges(rows[i].accountCode, ranges));
  }

  /** The adjustments, investing and financing foreach loops. */
  method CollectRangeItems(rows: seq<TrialBalanceRow>, ranges: seq<string>, negate: bool) returns (items: seq<CashFlowItem>)
    ensures items == RangeItems(rows, InRangesRow(ranges), negate)
  {
    items := [];
    for i := 0 to |rows|
      invariant items == RangeItems(rows[..i], InRangesRow(ranges), negate)
    {
      items := AddRangeItemAt(rows, ranges, negate, i, items);
    }
    assert rows[..|rows|] == rows;
  }

  /** The items' amounts add up to the net of the rows in the ranges, or to its negation. */
  lemma {:induction false} RangeItemsSum(rows: seq<TrialBalanceRow>, sel: TrialBalanceRow -> bool, negate: bool)
    ensures Sum(RangeItems(rows, sel, negate), Amount) == if negate then -Sum(Where(rows, sel), RowNet) else Sum(Where(rows, sel), RowNet)
  {
    if rows != [] {
      RangeItemsSum(rows[1..], sel, negate);
      var x := rows[0];
      var p := sel;
      SumAppend(if p(x) then [CashFlowItem(x.accountName, if negate then -x.net else x.net)] else [],
                RangeItems(rows[1..], sel, negate), Amount);
      SumAppend(if p(x) then [x] else [], Where(rows[1..], p), RowNet);
    }
  }

  /** The working-capital item of one range: the change of its net from the
      previous trial balance to the current one, negated. */
  function WorkingCapitalItem(current: seq<TrialBalanceRow>, previous: seq<TrialBalanceRow>, range: string): CashFlowItem
  {
    CashFlowItem("Change in " + range, -(NetIn(current, [range]) - NetIn(previous, [range])))
  }

  function WorkingCapitalItems(current: seq<TrialBalanceRow>, previous: seq<TrialBalanceRow>, ranges: seq<string>): (r: seq<CashFlowItem>)
    ensures |r| == |ranges| && forall k :: 0 <= k < |r| ==> r[k] == WorkingCapitalItem(current, previous, ranges[k])
  {
    if ranges == [] then [] else [WorkingCapitalItem(current, previous, ranges[0])] + WorkingCapitalItems(current, previous, ranges[1..])
  }

  /** The foreach over the working-capital ranges. */
  method CollectWorkingCapital(current: seq<TrialBalanceRow>, previous: seq<TrialBalanceRow>, ranges: seq<string>)
    returns (items: seq<CashFlowItem>)
    ensures items == WorkingCapitalItems(current, previous, ranges)
  {
    items := [];
    for i := 0 to |ranges|
      invariant |items| == i && forall k :: 0 <= k < i ==> items[k] == WorkingCapitalItem(current, previous, ranges[k])
    {
      var range := ranges[i];
      var currentBalance := NetIn(current, [range]);
      var previousBalance := NetIn(previous, [range]);
      var change := currentBalance - previousBalance;
      assert CashFlowItem("Change in " + range, -change) == WorkingCapitalItem(current, previous, ranges[i]);
      items := items + [CashFlowItem("Change in " + range, -change)];
    }
    SameItems(items, WorkingCapitalItems(current, previous, ranges));
  }

  lemma SameItems(a: seq<CashFlowItem>, b: seq<CashFlowItem>)
    requires |a| == |b| && forall k :: 0 <= k < |a| ==> a[k] == b[k]
    ensures a == b
  {
  }

  /** The cash flow of the current and previous trial balances, given the net income. */
  function CashFlowOf(current: seq<TrialBalanceRow>, previous: seq<TrialBalanceRow>, m: StatementMapping, netIncome: real): (r: CashFlowDto)
    ensures r.operatingActivities.netIncome == netIncome
    ensures r.netCashFromInvesting == Sum(r.investingActivities.items, Amount) && r.investingActivities.totalInvesting == 0.0
    ensures r.netCashFromFinancing == Sum(r.financingActivities.items, Amount) && r.financingActivities.totalFinancing == 0.0
    ensures r.netIncreaseInCash == r.netCashFromOperating + r.netCashFromInvesting + r.netCashFromFinancing
    ensures r.cashAtEnd == r.cashAtBeginning + r.netIncreaseInCash
  {
    var adjustments := RangeItems(current, InRangesRow(m.cashFlow.operatingActivities.adjustments), false);
    var changes := WorkingCapitalItems(current, previous, m.cashFlow.operatingActivities.changesInWorkingCapital);
    var operating := OperatingActivitiesSection(netIncome, adjustments, changes, Sum(adjustments, Amount), Sum(changes, Amount));
    var investing := RangeItems(current, InRangesRow(m.cashFlow.investingActivities), true);
    var financing := RangeItems(current, InRangesRow(m.cashFlow.financingActivities), false);
    var fromOperating := netIncome + operating.totalAdjustments + operating.totalChangesInWorkingCapital;
    var increase := fromOperating + Sum(investing, Amount) + Sum(financing, Amount);
    var beginning := NetIn(previous, m.balanceSheet.assets.currentAssets);
    CashFlowDto(operating, InvestingActivitiesSection(investing, 0.0), FinancingActivitiesSection(financing, 0.0),
                fromOperating, Sum(investing, Amount), Sum(financing, Amount), increase, beginning, beginning + increase)
  }

  /** The section loops and the totals of GetCashFlowAsync. */
  method BuildCashFlow(current: seq<TrialBalanceRow>, previous: seq<TrialBalanceRow>, m: StatementMapping, netIncome: real)
    returns (cashFlow: CashFlowDto)
    ensures cashFlow == CashFlowOf(current, previous, m, netIncome)
  {
    var adjustments := CollectRangeItems(current, m.cashFlow.operatingActivities.adjustments, false);
    var totalAdjustments := Sum(adjustments, Amount);
    var changes := CollectWorkingCapital(current, previous, m.cashFlow.operatingActivities.changesInWorkingCapital);
    var totalChanges := Sum(changes, Amount);
    var operating := OperatingActivitiesSection(netIncome, adjustments, changes, totalAdjustments, totalChanges);
    var fromOperating := netIncome + totalAdjustments + totalChanges;
    var investing := CollectRangeItems(current, m.cashFlow.investingActivities, true);
    var fromInvesting := Sum(investing, Amount);
    var financing := CollectRangeItems(current, m.cashFlow.financingActivities, false);
    var fromFinancing := Sum(financing, Amount);
    var increase := fromOperating + fromInvesting + fromFinancing;
    var beginning := NetIn(previous, m.balanceSheet.assets.currentAssets);
    cashFlow := CashFlowDto(operating, InvestingActivitiesSection(investing, 0.0), FinancingActivitiesSection(financing, 0.0),
                            fromOperating, fromInvesting, fromFinancing, increase, beginning, beginning + increase);
  }

  /** The cash figures: adjustments and financing bring in the net of their
      rows, investing its negation, each working-capital range the negated
      change of its net; the increase is the sum of the three activities and
      the closing cash the opening cash (current assets of the previous
      trial balance) plus the increase. The section totals of investing and
      financing are never assigned. */
  lemma CashFlowTotals(current: seq<TrialBalanceRow>, previous: seq<TrialBalanceRow>, m: StatementMapping, netIncome: real)
    ensures var c := CashFlowOf(current, previous, m, netIncome);
      var ops := m.cashFlow.operatingActivities;
      c.operatingActivities.netIncome == netIncome &&
      c.operatingActivities.totalAdjustments == NetIn(current, ops.adjustments) &&
      c.netCashFromOperating == netIncome + NetIn(current, ops.adjustments) + c.operatingActivities.totalChangesInWorkingCapital &&
      c.netCashFromInvesting == -NetIn(current, m.cashFlow.investingActivities) &&
      c.netCashFromFinancing == NetIn(current, m.cashFlow.financingActivities) &&
      c.netIncreaseInCash == c.netCashFromOperating + c.netCashFromInvesting + c.netCashFromFinancing &&
      c.cashAtBeginning == NetIn(previous, m.balanceSheet.assets.currentAssets) &&
      c.cashAtEnd == c.cashAtBeginning + c.netIncreaseInCash &&
      c.investingActivities.totalInvesting == 0.0 && c.financingActivities.totalFinancing == 0.0
  {
    RangeItemsSum(current, InRangesRow(m.cashFlow.operatingActivities.adjustments), false);
    RangeItemsSum(current, InRangesRow(m.cashFlow.investingActivities), true);
    RangeItemsSum(current, InRangesRow(m.cashFlow.financingActivities), false);
  }

  /** An item of a range-selected list is the name and (negated) net of a row in the ranges, and every such row has one. */
  lemma {:induction false} RangeItemsMembers(rows: seq<TrialBalanceRow>, sel: TrialBalanceRow -> bool, negate: bool)
    ensures forall x :: x in RangeItems(rows, sel, negate) <==>
              exists k :: 0 <= k < |rows| && sel(rows[k]) &&
                          x == CashFlowItem(rows[k].accountName, if negate then -rows[k].net else rows[k].net)
  {
    if rows != [] {
      RangeItemsMembers(rows[1..], sel, negate);
      forall x | x in RangeItems(rows[1..], sel, negate)
        ensures exists k :: 0 <= k < |rows| && sel(rows[k]) &&
                            x == CashFlowItem(rows[k].accountName, if negate then -rows[k].net else rows[k].net)
      {
        var k :| 0 <= k < |rows[1..]| && sel(rows[1..][k]) &&
                 x == CashFlowItem(rows[1..][k].accountName, if negate then -rows[1..][k].net else rows[1..][k].net);
        assert rows[k + 1] == rows[1..][k];
      }
      forall k | 0 <= k < |rows| && sel(rows[k])
        ensures CashFlowItem(rows[k].accountName, if negate then -rows[k].net else rows[k].net) in RangeItems(rows, sel, negate)
      {
        if k > 0 {
          assert rows[1..][k - 1] == rows[k];
        }
      }
    }
  }

  // ---------------------------------------------------------------------
  // The service

  /** The trial balance of a period: its first to its last day. */
  function PeriodRows(entries: seq<JournalEntry>, accounts: seq<Account>, p: FiscalPeriod, cc: Option<Guid>): (r: seq<TrialBalanceRow>)
    ensures Sorting.SortedBy(r, RowKey, false)
  {
    GetTrialBalance(entries, accounts, DayOf(p.startDate), DayOf(p.endDate), cc)
  }

  /** GetBalanceSheetAsync as a value: an unknown period is an argument error. */
  function BalanceSheetFor(periods: seq<FiscalPeriod>, entries: seq<JournalEntry>, accounts: seq<Account>,
                           m: StatementMapping, periodId: Guid, cc: Option<Guid>): (r: Result<BalanceSheetDto, Fault>)
    ensures r.Err? <==> GetById(periods, PeriodManagement.PeriodId, periodId).None?
    ensures r.Err? ==> r.error == InvalidArgument
  {
    match GetById(periods, PeriodManagement.PeriodId, periodId)
    case None => Err(InvalidArgument)
    case Some(p) => Ok(BalanceSheetOf(PeriodRows(entries, accounts, p, cc), m.balanceSheet))
  }

  /** GetIncomeStatementAsync as a value. */
  function IncomeStatementFor(periods: seq<FiscalPeriod>, entries: seq<JournalEntry>, accounts: seq<Account>,
                              m: StatementMapping, periodId: Guid, cc: Option<Guid>): (r: Result<IncomeStatementDto, Fault>)
    ensures r.Err? <==> GetById(periods, PeriodManagement.PeriodId, periodId).None?
    ensures r.Err? ==> r.error == InvalidArgument
  {
    match GetById(periods, PeriodManagement.PeriodId, periodId)
    case None => Err(InvalidArgument)
    case Some(p) => Ok(IncomeStatementOf(PeriodRows(entries, accounts, p, cc), m.incomeStatement))
  }

  /** GetCashFlowAsync as a value. The previous period ends the day before the
      period starts and begins a year before that; `yearBefore` is
      DateTime.AddYears(-1), None where it throws, and a start within the
      first day makes AddDays(-1) throw. */
  function CashFlowFor(periods: seq<FiscalPeriod>, entries: seq<JournalEntry>, accounts: seq<Account>,
                       m: StatementMapping, periodId: Guid, cc: Option<Guid>, yearBefore: Ticks -> Option<Ticks>): (r: Result<CashFlowDto, Fault>)
    ensures GetById(periods, PeriodManagement.PeriodId, periodId).None? ==> r == Err(InvalidArgument)
    ensures GetById(periods, PeriodManagement.PeriodId, periodId).Some? ==>
      var p := GetById(periods, PeriodManagement.PeriodId, periodId).value;
      (r.Err? <==> p.startDate < TicksPerDay || yearBefore(p.startDate - TicksPerDay).None?) &&
      (r.Err? ==> r.error == OutOfRange)
  {
    match GetById(periods, PeriodManagement.PeriodId, periodId)
    case None => Err(InvalidArgument)
    case Some(p) =>
      if p.startDate < TicksPerDay then Err(OutOfRange)
      else
        var previousEnd := p.startDate - TicksPerDay;
        match yearBefore(previousEnd)
        case None => Err(OutOfRange)
        case Some(previousStart) => Ok(PeriodCashFlow(entries, accounts, m, p, cc, previousStart, previousEnd))
  }

  /** The cash flow of a period whose previous period runs from `previousStart`
      to `previousEnd`. */
  function PeriodCashFlow(entries: seq<JournalEntry>, accounts: seq<Account>, m: StatementMapping, p: FiscalPeriod,
                          cc: Option<Guid>, previousStart: Ticks, previousEnd: Ticks): (r: CashFlowDto)
    ensures r.operatingActivities.netIncome == IncomeStatementOf(PeriodRows(entries, accounts, p, cc), m.incomeStatement).netIncome
    ensures r.cashAtEnd == r.cashAtBeginning + r.netIncreaseInCash
  {
    var current := PeriodRows(entries, accounts, p, cc);
    var previous := GetTrialBalance(entries, accounts, DayOf(previousStart), DayOf(previousEnd), cc);
    CashFlowOf(current, previous, m, IncomeStatementOf(current, m.incomeStatement).netIncome)
  }

  /** The cash flow starts from the net income of the income statement of the same period. */
  lemma CashFlowNetIncome(periods: seq<FiscalPeriod>, entries: seq<JournalEntry>, accounts: seq<Account>,
                          m: StatementMapping, periodId: Guid, cc: Option<Guid>, yearBefore: Ticks -> Option<Ticks>)
    requires CashFlowFor(periods, entries, accounts, m, periodId, cc, yearBefore).Ok?
    ensures IncomeStatementFor(periods, entries, accounts, m, periodId, cc).Ok?
    ensures CashFlowFor(periods, entries, accounts, m, periodId, cc, yearBefore).value.operatingActivities.netIncome ==
            IncomeStatementFor(periods, entries, accounts, m, periodId, cc).value.netIncome
  {
    var p := GetById(periods, PeriodManagement.PeriodId, periodId).value;
    var previousEnd := p.startDate - TicksPerDay;
    var previousStart := yearBefore(previousEnd).value;
    CashFlowForOk(periods, entries, accounts, m, periodId, cc, yearBefore, p, previousStart);
    var current := PeriodRows(entries, accounts, p, cc);
    var previous := GetTrialBalance(entries, accounts, DayOf(previousStart), DayOf(previousEnd), cc);
    CashFlowTotals(current, previous, m, IncomeStatementOf(current, m.incomeStatement).netIncome);
  }

  /** The value CashFlowFor takes for a known period whose dates shift. */
  lemma CashFlowForOk(periods: seq<FiscalPeriod>, entries: seq<JournalEntry>, accounts: seq<Account>,
                      m: StatementMapping, periodId: Guid, cc: Option<Guid>, yearBefore: Ticks -> Option<Ticks>,
                      p: FiscalPeriod, previousStart: Ticks)
    requires GetById(periods, PeriodManagement.PeriodId, periodId) == Some(p)
    requires p.startDate >= TicksPerDay && yearBefore(p.startDate - TicksPerDay) == Some(previousStart)
    ensures CashFlowFor(periods, entries, accounts, m, periodId, cc, yearBefore).Ok?
    ensures CashFlowFor(periods, entries, accounts, m, periodId, cc, yearBefore).value ==
      PeriodCashFlow(entries, accounts, m, p, cc, previousStart, p.startDate - TicksPerDay)
    ensures IncomeStatementFor(periods, entries, accounts, m, periodId, cc).Ok?
    ensures IncomeStatementFor(periods, entries, accounts, m, periodId, cc).value ==
      IncomeStatementOf(PeriodRows(entries, accounts, p, cc), m.incomeStatement)
  {
    var previousEnd := p.startDate - TicksPerDay;
    assert yearBefore(previousEnd).value == previousStart;
  }

  /** The service object: the period table, the journal and chart behind the
      trial-balance service, and the configured mapping. */
  class FinancialStatementService {
    var periods: seq<FiscalPeriod>
    var entries: seq<JournalEntry>
    var accounts: seq<Account>
    var mapping: StatementMapping

    constructor (periods: seq<FiscalPeriod>, entries: seq<JournalEntry>, accounts: seq<Account>, mapping: StatementMapping)
      ensures this.periods == periods && this.entries == entries && this.accounts == accounts && this.mapping == mapping
    {
      this.periods := periods;
      this.entries := entries;
      this.accounts := accounts;
      this.mapping := mapping;
    }

    method GetBalanceSheet(periodId: Guid, cc: Option<Guid>) returns (r: Result<BalanceSheetDto, Fault>)
      ensures r == BalanceSheetFor(periods, entries, accounts, mapping, periodId, cc)
    {
      var period := GetById(periods, PeriodManagement.PeriodId, periodId);
      if period.None? {
        return Err(InvalidArgument);
      }
      var trialBalance := PeriodRows(entries, accounts, period.value, cc);
      var sheet := BuildBalanceSheet(trialBalance, mapping.balanceSheet);
      r := Ok(sheet);
    }

    method GetIncomeStatement(periodId: Guid, cc: Option<Guid>) returns (r: Result<IncomeStatementDto, Fault>)
      ensures r == IncomeStatementFor(periods, entries, accounts, mapping, periodId, cc)
    {
      var period := GetById(periods, PeriodManagement.PeriodId, periodId);
      if period.None? {
        return Err(InvalidArgument);
      }
      var trialBalance := PeriodRows(entries, accounts, period.value, cc);
      var statement := BuildIncomeStatement(trialBalance, mapping.incomeStatement);
      r := Ok(statement);
    }

    method GetCashFlow(periodId: Guid, cc: Option<Guid>, yearBefore: Ticks -> Option<Ticks>) returns (r: Result<CashFlowDto, Fault>)
      ensures r == CashFlowFor(periods, entries, accounts, mapping, periodId, cc, yearBefore)
    {
      var period := GetById(periods, PeriodManagement.PeriodId, periodId);
      if period.None? {
        return Err(InvalidArgument);
      }
      var p := period.value;
      var currentTrialBalance := PeriodRows(entries, accounts, p, cc);
      if p.startDate < TicksPerDay {
        return Err(OutOfRange);
      }
      var previousEnd := p.startDate - TicksPerDay;
      var previousStart := yearBefore(previousEnd);
      if previousStart.None? {
        return Err(OutOfRange);
      }
      var previousTrialBalance := GetTrialBalance(entries, accounts, DayOf(previousStart.value), DayOf(previousEnd), cc);
      var cashFlow := ComposeCashFlow(periodId, p, cc, previousStart.value, previousEnd, currentTrialBalance, previousTrialBalance);
      CashFlowForOk(periods, entries, accounts, mapping, periodId, cc, yearBefore, p, previousStart.value);
      r := Ok(cashFlow);
    }

    /** The rest of GetCashFlowAsync once both trial balances are read: the
        income statement of the period for its net income, then the sections. */
    method ComposeCashFlow(periodId: Guid, p: FiscalPeriod, cc: Option<Guid>, previousStart: Ticks, previousEnd: Ticks,
                           currentTrialBalance: seq<TrialBalanceRow>, previousTrialBalance: seq<TrialBalanceRow>)
      returns (cashFlow: CashFlowDto)
      requires GetById(periods, PeriodManagement.PeriodId, periodId) == Some(p)
      requires currentTrialBalance == PeriodRows(entries, accounts, p, cc)
      requires previousTrialBalance == GetTrialBalance(entries, accounts, DayOf(previousStart), DayOf(previousEnd), cc)
      ensures cashFlow == PeriodCashFlow(entries, accounts, mapping, p, cc, previousStart, previousEnd)
    {
      var incomeStatement := GetIncomeStatement(periodId, cc);
      cashFlow := BuildCashFlow(currentTrialBalance, previousTrialBalance, mapping, incomeStatement.value.netIncome);
    }
  }
}
