// The trial balance (Areas/Accounting/Services/TrialBalanceService.cs): the
// journal lines posted in a date window, grouped by account, summed, joined
// with the chart of accounts and ordered by account code. The line
// selection and the per-account sums are shared with the report builders.

module TrialBalance {
  import opened Wrappers
  import opened Sorting
  import opened Ledger
  import opened Repository
  import ChartOfAccounts

  // ---------------------------------------------------------------------
  // Selecting lines

  /** `!costCenterId.HasValue || line.CostCenterId == costCenterId`. */
  predicate CenterMatches(cc: Option<Guid>, l: JournalLine) { cc.None? || l.costCenterId == cc }

  function CenterFilter(cc: Option<Guid>): JournalLine -> bool { (l: JournalLine) => CenterMatches(cc, l) }

  /** The lines of the entries `keep` selects that match the cost center,
      entry by entry (the line table joined to its entry). */
  function LinesOf(entries: seq<JournalEntry>, keep: JournalEntry -> bool, cc: Option<Guid>): (r: seq<JournalLine>)
    ensures forall k :: 0 <= k < |r| ==> CenterMatches(cc, r[k])
  {
    if entries == [] then []
    else (if keep(entries[0]) then Where(entries[0].lines, CenterFilter(cc)) else []) + LinesOf(entries[1..], keep, cc)
  }

  /** A line is selected exactly when its entry is kept and it matches the cost center. */
  lemma {:induction false} LinesOfMembers(entries: seq<JournalEntry>, keep: JournalEntry -> bool, cc: Option<Guid>)
    ensures forall x :: x in LinesOf(entries, keep, cc) <==>
              (exists i :: 0 <= i < |entries| && keep(entries[i]) && x in entries[i].lines) && CenterMatches(cc, x)
  {
    if entries != [] {
      LinesOfMembers(entries[1..], keep, cc);
      WhereMembers(entries[0].lines, CenterFilter(cc));
      assert forall i :: 0 <= i < |entries[1..]| ==> entries[1..][i] == entries[i + 1];
      forall x | (exists i :: 0 <= i < |entries| && keep(entries[i]) && x in entries[i].lines) && !(keep(entries[0]) && x in entries[0].lines)
        ensures exists i :: 0 <= i < |entries[1..]| && keep(entries[1..][i]) && x in entries[1..][i].lines
      {
        var i :| 0 <= i < |entries| && keep(entries[i]) && x in entries[i].lines;
        assert i > 0 && entries[1..][i - 1] == entries[i];
      }
    }
  }

  /** Entries that `keep` turns away can be dropped beforehand: every entry
      `keep` accepts satisfies `q`, so only entries satisfying `q` contribute. */
  lemma {:induction false} LinesOfOnlyKept(entries: seq<JournalEntry>, keep: JournalEntry -> bool,
                                           q: JournalEntry -> bool, cc: Option<Guid>)
    requires forall e :: keep(e) ==> q(e)
    ensures LinesOf(entries, keep, cc) == LinesOf(Where(entries, q), keep, cc)
  {
    if entries != [] {
      LinesOfOnlyKept(entries[1..], keep, q, cc);
      if q(entries[0]) {
        assert Where(entries, q) == [entries[0]] + Where(entries[1..], q);
        assert ([entries[0]] + Where(entries[1..], q))[1..] == Where(entries[1..], q);
      } else {
        assert Where(entries, q) == Where(entries[1..], q);
      }
    }
  }

  /** Two entry tables that agree, entry by entry, on what is kept and on the
      lines select the same lines, whatever else differs. */
  lemma {:induction false} LinesOfSame(entries: seq<JournalEntry>, others: seq<JournalEntry>,
                                       keep: JournalEntry -> bool, cc: Option<Guid>)
    requires |entries| == |others|
    requires forall i :: 0 <= i < |entries| ==> keep(entries[i]) == keep(others[i]) && entries[i].lines == others[i].lines
    ensures LinesOf(entries, keep, cc) == LinesOf(others, keep, cc)
  {
    if entries != [] {
      LinesOfSame(entries[1..], others[1..], keep, cc);
    }
  }

  // ---------------------------------------------------------------------
  // The date window

  /** 23:59:59 after midnight: the time of day the window ends at. */
  const LastSecondOfDay: nat := 86_399 * TicksPerSecond

  function TimeOfDay(t: Ticks): nat { t % TicksPerDay }

  /** fromDate = `from` at 00:00:00, toDate = `to` at 23:59:59, both inclusive. */
  predicate InWindow(from: nat, to: nat, e: JournalEntry)
  {
    StartOfDay(from) <= e.postingDate <= StartOfDay(to) + LastSecondOfDay
  }

  function Window(from: nat, to: nat): JournalEntry -> bool { (e: JournalEntry) => InWindow(from, to, e) }

  /** The window holds the postings dated `from` through `to`, except the last
      second of `to` after 23:59:59: a posting at 23:59:59.5 is left out. */
  lemma WindowByDay(from: nat, to: nat, e: JournalEntry)
    ensures InWindow(from, to, e) <==>
              from <= DayOf(e.postingDate) <= to &&
              (DayOf(e.postingDate) == to ==> TimeOfDay(e.postingDate) <= LastSecondOfDay)
  {
    var p := e.postingDate;
    var d := DayOf(p);
    assert p == d * TicksPerDay + TimeOfDay(p);
    assert TimeOfDay(p) < TicksPerDay;
    if from <= d {
      MulMonotone(from, d, TicksPerDay);
    } else {
      MulMonotone(d + 1, from, TicksPerDay);
    }
    if d < to {
      MulMonotone(d + 1, to, TicksPerDay);
    } else if d > to {
      MulMonotone(to + 1, d, TicksPerDay);
    }
  }

  // ---------------------------------------------------------------------
  // Per-account sums

  function LineDebit(l: JournalLine): real { l.debit }

  function LineCredit(l: JournalLine): real { l.credit }

  function OnAccount(id: Guid): JournalLine -> bool { (l: JournalLine) => l.accountId == id }

  /** There is a group for the account: some line is posted to it. */
  predicate HasLines(lines: seq<JournalLine>, id: Guid)
  {
    exists k :: 0 <= k < |lines| && lines[k].accountId == id
  }

  function DebitOf(lines: seq<JournalLine>, id: Guid): real { Sum(Where(lines, OnAccount(id)), LineDebit) }

  function CreditOf(lines: seq<JournalLine>, id: Guid): real { Sum(Where(lines, OnAccount(id)), LineCredit) }

  /** An account without lines has nothing to sum. */
  lemma {:induction false} NoLinesNoSums(lines: seq<JournalLine>, id: Guid)
    requires !HasLines(lines, id)
    ensures Where(lines, OnAccount(id)) == []
    ensures DebitOf(lines, id) == 0.0 && CreditOf(lines, id) == 0.0
  {
    if lines != [] {
      assert !HasLines(lines[1..], id) by {
        forall k | 0 <= k < |lines[1..]| ensures lines[1..][k].accountId != id {
          assert lines[1..][k] == lines[k + 1];
        }
      }
      NoLinesNoSums(lines[1..], id);
    }
  }

  // ---------------------------------------------------------------------
  // Grouping

  predicate Distinct<T(==)>(s: seq<T>)
  {
    forall i, j :: 0 <= i < j < |s| ==> s[i] != s[j]
  }

  /** GroupBy(AccountId): the group keys, in the order of their first line. */
  function GroupKeys(lines: seq<JournalLine>): (keys: seq<Guid>)
    ensures forall a :: a in keys <==> HasLines(lines, a)
    ensures Distinct(keys)
    decreases |lines|
  {
    if lines == [] then []
    else
      var init := lines[..|lines| - 1];
      var keys := GroupKeys(init);
      var a := lines[|lines| - 1].accountId;
      assert forall k :: 0 <= k < |init| ==> init[k] == lines[k];
      assert forall b :: HasLines(lines, b) <==> HasLines(init, b) || b == a by {
        forall b | HasLines(lines, b) ensures HasLines(init, b) || b == a {
          var k :| 0 <= k < |lines| && lines[k].accountId == b;
          if k < |init| { assert init[k].accountId == b; }
        }
      }
      if a in keys then keys else keys + [a]
  }

  /** The sum of an amount over distinct keys, counted only at `a`. */
  function Indicator(a: Guid, v: real): Guid -> real { (k: Guid) => if k == a then v else 0.0 }

  lemma {:induction false} SumIndicator(keys: seq<Guid>, a: Guid, v: real)
    requires Distinct(keys)
    ensures Sum(keys, Indicator(a, v)) == if a in keys then v else 0.0
  {
    if keys != [] {
      assert Distinct(keys[1..]) by {
        forall i, j | 0 <= i < j < |keys[1..]| ensures keys[1..][i] != keys[1..][j] {
          assert keys[1..][i] == keys[i + 1] && keys[1..][j] == keys[j + 1];
        }
      }
      SumIndicator(keys[1..], a, v);
      assert a in keys <==> keys[0] == a || a in keys[1..] by {
        assert keys == [keys[0]] + keys[1..];
      }
      if keys[0] == a {
        assert a !in keys[1..];
      }
    }
  }

  /** The per-account sum of an amount, as a function of the account. */
  function AccountSum(lines: seq<JournalLine>, f: JournalLine -> real): Guid -> real
  {
    (k: Guid) => Sum(Where(lines, OnAccount(k)), f)
  }

  /** Grouping loses nothing: summing the per-account sums over distinct keys
      that cover every line's account gives the sum over all lines. */
  lemma {:induction false} SumByAccount(keys: seq<Guid>, lines: seq<JournalLine>, f: JournalLine -> real)
    requires Distinct(keys)
    requires forall k :: 0 <= k < |lines| ==> lines[k].accountId in keys
    ensures Sum(keys, AccountSum(lines, f)) == Sum(lines, f)
  {
    if lines == [] {
      SumCongruent(keys, AccountSum(lines, f), Indicator(0, 0.0));
      SumIndicator(keys, 0, 0.0);
    } else {
      var x := lines[0];
      var rest := lines[1..];
      SumByAccount(keys, rest, f);
      forall i | 0 <= i < |keys|
        ensures AccountSum(rest, f)(keys[i]) == AccountSum(lines, f)(keys[i]) - Indicator(x.accountId, f(x))(keys[i])
      {
        var p := OnAccount(keys[i]);
        assert Where(lines, p) == (if p(x) then [x] else []) + Where(rest, p);
        SumAppend(if p(x) then [x] else [], Where(rest, p), f);
      }
      SumDifference(keys, AccountSum(lines, f), Indicator(x.accountId, f(x)), AccountSum(rest, f));
      SumIndicator(keys, x.accountId, f(x));
    }
  }

  // ---------------------------------------------------------------------
  // The rows

  /** TrialBalanceRow. */
  datatype TrialBalanceRow = TrialBalanceRow(accountCode: string, accountName: string, debit: real, credit: real, net: real)

  /** The row the join makes for an account: its code and English name with the sums of its group. */
  function RowFor(lines: seq<JournalLine>, a: Account): TrialBalanceRow
  {
    var debit := DebitOf(lines, a.id);
    var credit := CreditOf(lines, a.id);
    TrialBalanceRow(a.code, a.nameEn, debit, credit, debit - credit)
  }

  function IdIs(id: Guid): Account -> bool { (a: Account) => a.id == id }

  function RowsFor(lines: seq<JournalLine>, matches: seq<Account>): (r: seq<TrialBalanceRow>)
    ensures |r| == |matches| && forall k :: 0 <= k < |r| ==> r[k] == RowFor(lines, matches[k])
  {
    if matches == [] then [] else [RowFor(lines, matches[0])] + RowsFor(lines, matches[1..])
  }

  /** Join(accounts, AccountId, Id): for each group in order, a row per account with that id. */
  function Joined(lines: seq<JournalLine>, keys: seq<Guid>, accounts: seq<Account>): (r: seq<TrialBalanceRow>)
    ensures forall k :: 0 <= k < |r| ==> r[k].net == r[k].debit - r[k].credit
  {
    if keys == [] then []
    else RowsFor(lines, Where(accounts, IdIs(keys[0]))) + Joined(lines, keys[1..], accounts)
  }

  lemma {:induction false} JoinedMembers(lines: seq<JournalLine>, keys: seq<Guid>, accounts: seq<Account>)
    ensures forall x :: x in Joined(lines, keys, accounts) <==>
              exists a :: a in accounts && a.id in keys && x == RowFor(lines, a)
  {
    if keys != [] {
      JoinedMembers(lines, keys[1..], accounts);
      var m := Where(accounts, IdIs(keys[0]));
      WhereMembers(accounts, IdIs(keys[0]));
      assert keys == [keys[0]] + keys[1..];
      forall x | x in RowsFor(lines, m) ensures exists a :: a in accounts && a.id in keys && x == RowFor(lines, a) {
        var k :| 0 <= k < |m| && RowsFor(lines, m)[k] == x;
        assert m[k] in m;
      }
      forall a | a in accounts && a.id == keys[0] ensures RowFor(lines, a) in RowsFor(lines, m) {
        var k :| 0 <= k < |m| && m[k] == a;
        assert RowsFor(lines, m)[k] == RowFor(lines, a);
      }
    }
  }

  function RowKey(r: TrialBalanceRow): seq<int> { StringKey(r.accountCode) }

  function RowDebit(r: TrialBalanceRow): real { r.debit }

  function RowCredit(r: TrialBalanceRow): real { r.credit }

  function RowNet(r: TrialBalanceRow): real { r.net }

  /** GetTrialBalanceAsync(from, to, costCenterId), with `from` and `to` as day numbers. */
  function GetTrialBalance(entries: seq<JournalEntry>, accounts: seq<Account>, from: nat, to: nat, cc: Option<Guid>): (r: seq<TrialBalanceRow>)
    ensures SortedBy(r, RowKey, false)
  {
    var lines := LinesOf(entries, Window(from, to), cc);
    SortBy(Joined(lines, GroupKeys(lines), accounts), RowKey, false)
  }

  /** There is one row for each account with at least one qualifying line, and
      no other: accounts absent from the chart drop out, and each row carries
      its account's code, English name, debit and credit sums and their
      difference. */
  lemma TrialBalanceRows(entries: seq<JournalEntry>, accounts: seq<Account>, from: nat, to: nat, cc: Option<Guid>)
    ensures var lines := LinesOf(entries, Window(from, to), cc);
      forall x :: x in GetTrialBalance(entries, accounts, from, to, cc) <==>
        exists a :: a in accounts && HasLines(lines, a.id) && x == RowFor(lines, a)
  {
    var lines := LinesOf(entries, Window(from, to), cc);
    var joined := Joined(lines, GroupKeys(lines), accounts);
    JoinedMembers(lines, GroupKeys(lines), accounts);
    SortByMembers(joined, RowKey, false);
  }

  /** Each row's net is its debit minus its credit, so the nets add up to the
      total debit minus the total credit. */
  lemma NetIsDebitMinusCredit(entries: seq<JournalEntry>, accounts: seq<Account>, from: nat, to: nat, cc: Option<Guid>)
    ensures var r := GetTrialBalance(entries, accounts, from, to, cc);
      (forall k :: 0 <= k < |r| ==> r[k].net == r[k].debit - r[k].credit) &&
      Sum(r, RowNet) == Sum(r, RowDebit) - Sum(r, RowCredit)
  {
    var r := GetTrialBalance(entries, accounts, from, to, cc);
    TrialBalanceRows(entries, accounts, from, to, cc);
    forall k | 0 <= k < |r| ensures r[k].net == r[k].debit - r[k].credit {
      assert r[k] in r;
    }
    SumDifference(r, RowDebit, RowCredit, RowNet);
  }

  /** With unique account ids, the rows made for the groups sum to the per-account sums. */
  lemma {:induction false} JoinedSums(lines: seq<JournalLine>, keys: seq<Guid>, accounts: seq<Account>)
    requires UniqueKeys(accounts, ChartOfAccounts.AccountKey)
    requires forall k :: 0 <= k < |keys| ==> GetById(accounts, ChartOfAccounts.AccountKey, keys[k]).Some?
    ensures Sum(Joined(lines, keys, accounts), RowDebit) == Sum(keys, AccountSum(lines, LineDebit))
    ensures Sum(Joined(lines, keys, accounts), RowCredit) == Sum(keys, AccountSum(lines, LineCredit))
  {
    if keys != [] {
      JoinedSums(lines, keys[1..], accounts);
      var a := GetById(accounts, ChartOfAccounts.AccountKey, keys[0]).value;
      OnlyMatch(accounts, keys[0]);
      var m := Where(accounts, IdIs(keys[0]));
      assert RowsFor(lines, m) == [RowFor(lines, a)];
      SumAppend(RowsFor(lines, m), Joined(lines, keys[1..], accounts), RowDebit);
      SumAppend(RowsFor(lines, m), Joined(lines, keys[1..], accounts), RowCredit);
    }
  }

  /** With unique ids, the accounts with a given id are the one GetById finds. */
  lemma {:induction false} OnlyMatch(accounts: seq<Account>, id: Guid)
    requires UniqueKeys(accounts, ChartOfAccounts.AccountKey)
    requires GetById(accounts, ChartOfAccounts.AccountKey, id).Some?
    ensures Where(accounts, IdIs(id)) == [GetById(accounts, ChartOfAccounts.AccountKey, id).value]
  {
    var p := IdIs(id);
    if accounts[0].id == id {
      assert GetById(accounts, ChartOfAccounts.AccountKey, id).value == accounts[0];
      assert forall k :: 0 <= k < |accounts[1..]| ==> accounts[1..][k].id != id by {
        forall k | 0 <= k < |accounts[1..]| ensures accounts[1..][k].id != id {
          assert accounts[1..][k] == accounts[k + 1];
        }
      }
      NoneMatch(accounts[1..], id);
    } else {
      var rest := accounts[1..];
      assert UniqueKeys(rest, ChartOfAccounts.AccountKey) by {
        forall i, j | 0 <= i < j < |rest| ensures rest[i].id != rest[j].id {
          assert rest[i] == accounts[i + 1] && rest[j] == accounts[j + 1];
        }
      }
      var k :| 0 <= k < |accounts| && accounts[k].id == id;
      assert rest[k - 1].id == id;
      assert GetById(accounts, ChartOfAccounts.AccountKey, id) == GetById(rest, ChartOfAccounts.AccountKey, id);
      OnlyMatch(rest, id);
    }
  }

  lemma {:induction false} NoneMatch(accounts: seq<Account>, id: Guid)
    requires forall k :: 0 <= k < |accounts| ==> accounts[k].id != id
    ensures Where(accounts, IdIs(id)) == []
  {
    if accounts != [] {
      assert forall k :: 0 <= k < |accounts[1..]| ==> accounts[1..][k].id != id by {
        forall k | 0 <= k < |accounts[1..]| ensures accounts[1..][k].id != id {
          assert accounts[1..][k] == accounts[k + 1];
        }
      }
      NoneMatch(accounts[1..], id);
    }
  }

  /** Every line is posted to an account of the chart. */
  predicate InChart(accounts: seq<Account>, lines: seq<JournalLine>)
  {
    forall k :: 0 <= k < |lines| ==> GetById(accounts, ChartOfAccounts.AccountKey, lines[k].accountId).Some?
  }

  /** The trial balance loses no amount: when account ids are unique and every
      qualifying line's account is in the chart, the rows' debits and credits
      add up to the debits and credits of the qualifying lines. */
  lemma TrialBalanceTotals(entries: seq<JournalEntry>, accounts: seq<Account>, from: nat, to: nat, cc: Option<Guid>)
    requires UniqueKeys(accounts, ChartOfAccounts.AccountKey)
    requires InChart(accounts, LinesOf(entries, Window(from, to), cc))
    ensures var lines := LinesOf(entries, Window(from, to), cc);
      var r := GetTrialBalance(entries, accounts, from, to, cc);
      Sum(r, RowDebit) == Sum(lines, LineDebit) && Sum(r, RowCredit) == Sum(lines, LineCredit)
  {
    var lines := LinesOf(entries, Window(from, to), cc);
    var keys := GroupKeys(lines);
    var joined := Joined(lines, keys, accounts);
    forall k | 0 <= k < |keys| ensures GetById(accounts, ChartOfAccounts.AccountKey, keys[k]).Some? {
      assert keys[k] in keys;
      var j :| 0 <= j < |lines| && lines[j].accountId == keys[k];
    }
    forall k | 0 <= k < |lines| ensures lines[k].accountId in keys {
      assert HasLines(lines, lines[k].accountId);
    }
    JoinedSums(lines, keys, accounts);
    SumByAccount(keys, lines, LineDebit);
    SumByAccount(keys, lines, LineCredit);
    SumPermutation(joined, SortBy(joined, RowKey, false), RowDebit);
    SumPermutation(joined, SortBy(joined, RowKey, false), RowCredit);
  }

  /** So with no cost center given, a window of balanced entries yields a
      balanced trial balance. */
  lemma BalancedEntriesBalance(entries: seq<JournalEntry>, accounts: seq<Account>, from: nat, to: nat)
    requires UniqueKeys(accounts, ChartOfAccounts.AccountKey)
    requires forall i :: 0 <= i < |entries| ==> Sum(entries[i].lines, LineDebit) == Sum(entries[i].lines, LineCredit)
    requires InChart(accounts, LinesOf(entries, Window(from, to), None))
    ensures var r := GetTrialBalance(entries, accounts, from, to, None);
      Sum(r, RowDebit) == Sum(r, RowCredit)
  {
    TrialBalanceTotals(entries, accounts, from, to, None);
    BalancedLines(entries, Window(from, to));
  }

  lemma {:induction false} BalancedLines(entries: seq<JournalEntry>, keep: JournalEntry -> bool)
    requires forall i :: 0 <= i < |entries| ==> Sum(entries[i].lines, LineDebit) == Sum(entries[i].lines, LineCredit)
    ensures Sum(LinesOf(entries, keep, None), LineDebit) == Sum(LinesOf(entries, keep, None), LineCredit)
  {
    if entries != [] {
      BalancedLines(entries[1..], keep);
      var own := entries[0].lines;
      WhereAll(own, CenterFilter(None));
      var head := if keep(entries[0]) then Where(own, CenterFilter(None)) else [];
      SumAppend(head, LinesOf(entries[1..], keep, None), LineDebit);
      SumAppend(head, LinesOf(entries[1..], keep, None), LineCredit);
    }
  }

  /** There is no status filter: changing the status of any entry changes nothing. */
  lemma StatusIgnored(entries: seq<JournalEntry>, others: seq<JournalEntry>, accounts: seq<Account>,
                      from: nat, to: nat, cc: Option<Guid>)
    requires |entries| == |others|
    requires forall i :: 0 <= i < |entries| ==> others[i] == entries[i].(status := others[i].status)
    ensures GetTrialBalance(entries, accounts, from, to, cc) == GetTrialBalance(others, accounts, from, to, cc)
  {
    LinesOfSame(entries, others, Window(from, to), cc);
  }
}
