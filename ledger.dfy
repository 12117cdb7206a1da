// The entities of the accounting area (Areas/Accounting/Models) as values,
// and the money sums that every service computes over journal lines.
// Money is C# decimal, which is exact base-10 arithmetic; it is modelled as
// `real`, which is exact too (decimal's 28-digit rounding is not modelled).

module Ledger {
  import opened Wrappers

  /** A Guid; 0 stands for Guid.Empty. */
  type Guid = nat

  const EmptyGuid: Guid := 0

  /** A DateTime as its count of 100-nanosecond ticks since 0001-01-01. */
  type Ticks = nat

  const TicksPerSecond: nat := 10_000_000
  const TicksPerDay: nat := 864_000_000_000

  /** The day number of a DateTime, which is what DateOnly.FromDateTime keeps. */
  function DayOf(t: Ticks): nat { t / TicksPerDay }

  /** Midnight of a day number: DateOnly.ToDateTime(TimeOnly.MinValue). */
  function StartOfDay(d: nat): Ticks { d * TicksPerDay }

  /** JournalEntryStatus; Pending and PendingApproval are the same value (2). */
  datatype EntryStatus = Draft | Pending | Approved | Rejected | Posted

  datatype AccountType = Asset | Liability | Equity | Revenue | Expense

  datatype CostCenterType = Company | Branch | Department | Project

  datatype TaxType = Vat | Withholding

  datatype ClientType = IndividualClient | CompanyClient | GovernmentClient

  /** JournalEntryLine. DebitAmount/Debit and CreditAmount/Credit are one field each. */
  datatype JournalLine = JournalLine(
    id: Guid,
    accountId: Guid,
    costCenterId: Option<Guid>,
    description: string,
    debit: real,
    credit: real,
    taxRateId: Option<Guid>,
    taxAmount: Option<real>,
    withholdingTaxId: Option<Guid>)

  /** JournalEntry with the fields the services read or write. The services
      read `Date`, `CreatedAt` and `ApprovedAt`, columns since renamed; here
      `Date` is `entryDate` (EntryDate), `createdAt` is CreatedUtc and
      `approvedAt` is ApprovedUtc. */
  datatype JournalEntry = JournalEntry(
    id: Guid,
    number: string,
    entryDate: Ticks,
    postingDate: Ticks,
    description: Option<string>,
    reference: string,
    status: EntryStatus,
    totalDebit: real,
    totalCredit: real,
    clientId: Option<Guid>,
    vendorId: Option<Guid>,
    currency: string,
    exchangeRate: real,
    notes: Option<string>,
    attachmentUrl: Option<string>,
    fiscalPeriodId: Guid,
    createdAt: Ticks,
    approvedById: Option<string>,
    approvedAt: Option<Ticks>,
    rejectionReason: Option<string>,
    lines: seq<JournalLine>)

  datatype Account = Account(
    id: Guid,
    code: string,
    nameEn: string,
    nameAr: string,
    accountType: AccountType,
    parentId: Option<Guid>,
    isActive: bool,
    level: int)

  datatype FiscalYear = FiscalYear(
    id: Guid,
    code: string,
    name: string,
    startDate: Ticks,
    endDate: Ticks,
    isClosed: bool,
    isActive: bool)

  datatype FiscalPeriod = FiscalPeriod(
    id: Guid,
    name: string,
    startDate: Ticks,
    endDate: Ticks,
    isLocked: bool,
    isClosed: bool,
    fiscalYearId: Guid)

  /** CostCenter; `level` is the Level the cost-center service assigns. */
  datatype CostCenter = CostCenter(
    id: Guid,
    code: string,
    nameEn: string,
    nameAr: string,
    centerType: CostCenterType,
    parentId: Option<Guid>,
    isActive: bool,
    level: int)

  /** A row of the account/cost-center link table. */
  datatype AccountCostCenter = AccountCostCenter(accountId: Guid, costCenterId: Guid)

  datatype TaxRate = TaxRate(id: Guid, code: string, nameEn: string, rate: real, taxType: TaxType, isActive: bool)

  datatype WithholdingTax = WithholdingTax(id: Guid, code: string, nameEn: string, rate: real, isActive: bool)

  datatype Client = Client(
    id: Guid,
    code: string,
    nameEn: string,
    nameAr: string,
    clientType: ClientType,
    isActive: bool,
    accountId: Guid)

  /** Vendor; `vendorType` is the integer value of its VendorType enum field. */
  datatype Vendor = Vendor(
    id: Guid,
    code: string,
    nameEn: string,
    nameAr: string,
    vendorType: int,
    subjectToWithholdingTax: bool,
    isActive: bool,
    accountId: Guid)

  datatype AuditLog = AuditLog(
    id: Guid,
    entityName: string,
    entityId: string,
    action: string,
    oldValues: string,
    newValues: string,
    userId: string,
    timestamp: Ticks,
    ipAddress: string)

  /** The exceptions the services raise, by cause. */
  datatype Fault =
    | NotFound
    | NullReference
    | WrongStatus
    | ValidationFailed
    | PeriodLocked
    | DuplicateKey
    | InvalidDates
    | Overlapping
    | OutsideYear
    | OpenEntries
    | YearClosed
    | NextPeriodUsed
    | PeriodsUnlocked
    | InvalidArgument
    | OutOfRange

  /** LINQ Sum over a projection. */
  function Sum<T>(s: seq<T>, f: T -> real): real
  {
    if s == [] then 0.0 else f(s[0]) + Sum(s[1..], f)
  }

  lemma {:induction false} SumAppend<T>(a: seq<T>, b: seq<T>, f: T -> real)
    ensures Sum(a + b, f) == Sum(a, f) + Sum(b, f)
  {
    if a == [] {
      assert a + b == b;
    } else {
      assert (a + b)[1..] == a[1..] + b;
      SumAppend(a[1..], b, f);
    }
  }

  /** Sums of two projections that agree on every element are equal. */
  lemma {:induction false} SumCongruent<T>(s: seq<T>, f: T -> real, g: T -> real)
    requires forall k :: 0 <= k < |s| ==> f(s[k]) == g(s[k])
    ensures Sum(s, f) == Sum(s, g)
  {
    if s != [] {
      SumCongruent(s[1..], f, g);
    }
  }

  /** A sum of non-negative amounts is non-negative. */
  lemma {:induction false} SumNonNegative<T>(s: seq<T>, f: T -> real)
    requires forall k :: 0 <= k < |s| ==> f(s[k]) >= 0.0
    ensures Sum(s, f) >= 0.0
  {
    if s != [] {
      SumNonNegative(s[1..], f);
    }
  }

  /** The sum of differences is the difference of the sums. */
  lemma {:induction false} SumDifference<T>(s: seq<T>, f: T -> real, g: T -> real, h: T -> real)
    requires forall k :: 0 <= k < |s| ==> h(s[k]) == f(s[k]) - g(s[k])
    ensures Sum(s, h) == Sum(s, f) - Sum(s, g)
  {
    if s != [] {
      SumDifference(s[1..], f, g, h);
    }
  }

  /** A sum does not depend on the order of what is summed. */
  lemma {:induction false} SumPermutation<T>(a: seq<T>, b: seq<T>, f: T -> real)
    requires multiset(a) == multiset(b)
    ensures Sum(a, f) == Sum(b, f)
    decreases |a|
  {
    if a != [] {
      assert a[0] in multiset(b);
      var j :| 0 <= j < |b| && b[j] == a[0];
      var rest := b[..j] + b[j + 1..];
      assert b == b[..j] + [b[j]] + b[j + 1..];
      assert a == [a[0]] + a[1..];
      assert multiset(b) == multiset(b[..j]) + multiset{b[j]} + multiset(b[j + 1..]);
      assert multiset(a) == multiset{a[0]} + multiset(a[1..]);
      assert multiset(rest) == multiset(b[..j]) + multiset(b[j + 1..]);
      assert multiset(a[1..]) == multiset(a) - multiset{a[0]};
      assert multiset(rest) == multiset(b) - multiset{b[j]};
      SumPermutation(a[1..], rest, f);
      SumAppend(b[..j], b[j + 1..], f);
      SumAppend(b[..j] + [b[j]], b[j + 1..], f);
      SumAppend(b[..j], [b[j]], f);
    } else {
      assert |b| == |multiset(b)|;
    }
  }

  function Abs(x: real): (r: real)
    ensures r >= 0.0 && (r == x || r == -x)
  {
    if x < 0.0 then -x else x
  }

  function TotalDebit(lines: seq<JournalLine>): real { Sum(lines, (l: JournalLine) => l.debit) }

  function TotalCredit(lines: seq<JournalLine>): real { Sum(lines, (l: JournalLine) => l.credit) }

  /** The journal-line table: the lines of every entry, entry by entry. */
  function AllLines(entries: seq<JournalEntry>): seq<JournalLine>
  {
    if entries == [] then [] else entries[0].lines + AllLines(entries[1..])
  }

  lemma {:induction false} AllLinesMember(entries: seq<JournalEntry>, i: nat, k: nat)
    requires i < |entries| && k < |entries[i].lines|
    ensures entries[i].lines[k] in AllLines(entries)
  {
    if i > 0 {
      AllLinesMember(entries[1..], i - 1, k);
    }
  }
}
