// The fiscal calendar (Areas/Accounting/Services/PeriodManagementService.cs):
// creating and updating fiscal years and periods under the date checks,
// locking and reopening a period, and closing a year with all its periods.
// The service keeps the year and period tables, which it changes in place;
// the journal-entry table is read only.

module PeriodManagement {
  import opened Wrappers
  import opened Ledger
  import opened Repository
  import PeriodStatus
  import GeneralLedger

  function YearId(y: FiscalYear): nat { y.id }

  function PeriodId(p: FiscalPeriod): nat { p.id }

  /** Two date ranges share at least one instant (both ends included). */
  predicate Overlap(s1: Ticks, e1: Ticks, s2: Ticks, e2: Ticks) { s1 <= e2 && e1 >= s2 }

  /** `other` is not `y` itself (when `skipSelf`) and overlaps it. */
  predicate YearsMeet(y: FiscalYear, other: FiscalYear, skipSelf: bool)
  {
    (!skipSelf || other.id != y.id) && Overlap(y.startDate, y.endDate, other.startDate, other.endDate)
  }

  /** A stored year other than `y` itself (when `skipSelf`) overlaps `y`. */
  predicate YearClash(years: seq<FiscalYear>, y: FiscalYear, skipSelf: bool)
  {
    exists k :: 0 <= k < |years| && YearsMeet(y, years[k], skipSelf)
  }

  /** `other` is a period of the same year, not `p` itself (when `skipSelf`),
      and overlaps it. */
  predicate PeriodsMeet(p: FiscalPeriod, other: FiscalPeriod, skipSelf: bool)
  {
    (!skipSelf || other.id != p.id) && other.fiscalYearId == p.fiscalYearId &&
    Overlap(p.startDate, p.endDate, other.startDate, other.endDate)
  }

  /** A stored period of the same year, other than `p` itself (when
      `skipSelf`), overlaps `p`. */
  predicate PeriodClash(periods: seq<FiscalPeriod>, p: FiscalPeriod, skipSelf: bool)
  {
    exists k :: 0 <= k < |periods| && PeriodsMeet(p, periods[k], skipSelf)
  }

  /** The year as AddAsync stores it: a year left at Guid.Empty gets the
      generated key. */
  function KeyedYear(y: FiscalYear, generated: Guid): FiscalYear
  {
    y.(id := StoredKey(y.id, generated))
  }

  /** CreateFiscalYearAsync's checks, in order, then the insertion under the
      key Add gives the year. */
  function YearCreation(years: seq<FiscalYear>, y: FiscalYear, generated: Guid): (r: Outcome<Fault>)
    ensures r.Done? <==> y.startDate < y.endDate && !YearClash(years, y, false) &&
                         GetById(years, YearId, StoredKey(y.id, generated)).None?
    ensures y.startDate >= y.endDate ==> r == Fail(InvalidDates)
    ensures y.id == 0 && GetById(years, YearId, generated).None? ==> r != Fail(DuplicateKey)
  {
    if y.startDate >= y.endDate then Fail(InvalidDates)
    else if YearClash(years, y, false) then Fail(Overlapping)
    else if GetById(years, YearId, StoredKey(y.id, generated)).Some? then Fail(DuplicateKey)
    else Done
  }

  /** UpdateFiscalYearAsync's checks; the year is not compared with itself. */
  function YearUpdate(years: seq<FiscalYear>, y: FiscalYear): (r: Outcome<Fault>)
    ensures r.Done? <==> y.startDate < y.endDate && !YearClash(years, y, true) && GetById(years, YearId, y.id).Some?
    ensures y.startDate >= y.endDate ==> r == Fail(InvalidDates)
  {
    if y.startDate >= y.endDate then Fail(InvalidDates)
    else if YearClash(years, y, true) then Fail(Overlapping)
    else if GetById(years, YearId, y.id).None? then Fail(NotFound)
    else Done
  }

  /** The period lies inside the dates of its year. */
  predicate Within(p: FiscalPeriod, y: FiscalYear)
  {
    p.startDate >= y.startDate && p.endDate <= y.endDate
  }

  /** The checks of CreateFiscalPeriodAsync (`skipSelf` false) and
      UpdateFiscalPeriodAsync (`skipSelf` true), in their order. */
  function PeriodChecks(years: seq<FiscalYear>, periods: seq<FiscalPeriod>, p: FiscalPeriod, skipSelf: bool): (r: Outcome<Fault>)
    ensures r.Done? <==> p.startDate < p.endDate && InItsYear(years, p) && !PeriodClash(periods, p, skipSelf)
    ensures p.startDate < p.endDate && GetById(years, YearId, p.fiscalYearId).None? ==> r == Fail(NotFound)
  {
    if p.startDate >= p.endDate then Fail(InvalidDates)
    else
      var year := GetById(years, YearId, p.fiscalYearId);
      if year.None? then Fail(NotFound)
      else if p.startDate < year.value.startDate || p.endDate > year.value.endDate then Fail(OutsideYear)
      else if PeriodClash(periods, p, skipSelf) then Fail(Overlapping)
      else Done
  }

  /** The period as AddAsync stores it: a period left at Guid.Empty gets
      the generated key. */
  function KeyedPeriod(p: FiscalPeriod, generated: Guid): FiscalPeriod
  {
    p.(id := StoredKey(p.id, generated))
  }

  /** CreateFiscalPeriodAsync: the checks, then the insertion under the key
      Add gives the period. */
  function PeriodCreation(years: seq<FiscalYear>, periods: seq<FiscalPeriod>, p: FiscalPeriod, generated: Guid): (r: Outcome<Fault>)
    ensures r.Done? <==> PeriodChecks(years, periods, p, false).Done? &&
                         GetById(periods, PeriodId, StoredKey(p.id, generated)).None?
    ensures p.id == 0 && GetById(periods, PeriodId, generated).None? ==> r != Fail(DuplicateKey)
  {
    var checks := PeriodChecks(years, periods, p, false);
    if checks.Fail? then checks
    else if GetById(periods, PeriodId, StoredKey(p.id, generated)).Some? then Fail(DuplicateKey)
    else Done
  }

  function PeriodUpdate(years: seq<FiscalYear>, periods: seq<FiscalPeriod>, p: FiscalPeriod): (r: Outcome<Fault>)
    ensures r.Done? <==> PeriodChecks(years, periods, p, true).Done? && GetById(periods, PeriodId, p.id).Some?
  {
    var checks := PeriodChecks(years, periods, p, true);
    if checks.Fail? then checks
    else if GetById(periods, PeriodId, p.id).None? then Fail(NotFound)
    else Done
  }

  /** The entry is booked in the period and awaits review (Draft or Pending). */
  predicate AwaitsReview(e: JournalEntry, id: Guid)
  {
    e.fiscalPeriodId == id && (e.status == Draft || e.status == Pending)
  }

  predicate HasOpenEntries(entries: seq<JournalEntry>, id: Guid)
  {
    exists k :: 0 <= k < |entries| && AwaitsReview(entries[k], id)
  }

  /** CloseFiscalPeriodAsync: the locked period, unless it is missing or still
      has entries awaiting review. It is locked, not closed. */
  function PeriodClosing(periods: seq<FiscalPeriod>, entries: seq<JournalEntry>, id: Guid): (r: Result<FiscalPeriod, Fault>)
    ensures r.Ok? <==> GetById(periods, PeriodId, id).Some? && !HasOpenEntries(entries, id)
    ensures GetById(periods, PeriodId, id).None? ==> r == Err(NotFound)
    ensures r.Ok? ==> r.value == GetById(periods, PeriodId, id).value.(isLocked := true)
  {
    var period := GetById(periods, PeriodId, id);
    if period.None? then Err(NotFound)
    else if HasOpenEntries(entries, id) then Err(OpenEntries)
    else Ok(period.value.(isLocked := true))
  }

  /** `q` is in the year of `p` and starts the day after `p` ends. */
  predicate Follows(q: FiscalPeriod, p: FiscalPeriod)
  {
    q.fiscalYearId == p.fiscalYearId && q.startDate == p.endDate + TicksPerDay
  }

  /** The period that starts exactly one day after `p` ends, in the same year. */
  function NextPeriod(periods: seq<FiscalPeriod>, p: FiscalPeriod): (r: Option<FiscalPeriod>)
    ensures r.Some? ==> r.value in periods && Follows(r.value, p)
    ensures r.None? ==> forall k :: 0 <= k < |periods| ==> !Follows(periods[k], p)
  {
    var next := First(periods, (fp: FiscalPeriod) =>
      fp.fiscalYearId == p.fiscalYearId && fp.startDate > p.endDate && fp.startDate == p.endDate + TicksPerDay);
    if next.Some? then
      FirstIsMember(periods, (fp: FiscalPeriod) =>
        fp.fiscalYearId == p.fiscalYearId && fp.startDate > p.endDate && fp.startDate == p.endDate + TicksPerDay);
      next
    else next
  }

  lemma {:induction false} FirstIsMember<T>(rows: seq<T>, p: T -> bool)
    requires First(rows, p).Some?
    ensures First(rows, p).value in rows
  {
    if !p(rows[0]) {
      FirstIsMember(rows[1..], p);
    }
  }

  /** Some journal entry is booked in the period. */
  predicate HasEntries(entries: seq<JournalEntry>, id: Guid)
  {
    exists k :: 0 <= k < |entries| && entries[k].fiscalPeriodId == id
  }

  /** ReopenFiscalPeriodAsync: the unlocked period, unless it is missing, its
      year is closed (a missing year dereferences null), or the next period
      has entries. */
  function PeriodReopening(years: seq<FiscalYear>, periods: seq<FiscalPeriod>, entries: seq<JournalEntry>,
                           id: Guid): (r: Result<FiscalPeriod, Fault>)
    ensures GetById(periods, PeriodId, id).None? ==> r == Err(NotFound)
    ensures r.Ok? <==> ReopenAllowed(years, periods, entries, id)
    ensures r.Ok? ==> r.value == GetById(periods, PeriodId, id).value.(isLocked := false)
  {
    var period := GetById(periods, PeriodId, id);
    if period.None? then Err(NotFound)
    else
      var year := GetById(years, YearId, period.value.fiscalYearId);
      if year.None? then Err(NullReference)
      else if year.value.isClosed then Err(YearClosed)
      else
        var next := NextPeriod(periods, period.value);
        if next.Some? && HasEntries(entries, next.value.id) then Err(NextPeriodUsed)
        else Ok(period.value.(isLocked := false))
  }

  /** The period exists, its year exists and is open, and no period that
      follows it directly has entries. */
  predicate ReopenAllowed(years: seq<FiscalYear>, periods: seq<FiscalPeriod>, entries: seq<JournalEntry>, id: Guid)
  {
    var period := GetById(periods, PeriodId, id);
    period.Some? &&
    var year := GetById(years, YearId, period.value.fiscalYearId);
    var next := NextPeriod(periods, period.value);
    year.Some? && !year.value.isClosed && !(next.Some? && HasEntries(entries, next.value.id))
  }

  /** A period with IsClosed set when it belongs to the year. */
  function MarkClosed(p: FiscalPeriod, yearId: Guid): (q: FiscalPeriod)
    ensures q.(isClosed := p.isClosed) == p
    ensures q.isClosed <==> p.isClosed || p.fiscalYearId == yearId
  {
    if p.fiscalYearId == yearId then p.(isClosed := true) else p
  }

  /** All periods of the year closed, the others as they were. */
  function CloseAll(periods: seq<FiscalPeriod>, yearId: Guid): (r: seq<FiscalPeriod>)
    ensures |r| == |periods|
    ensures forall k :: 0 <= k < |periods| ==> r[k] == MarkClosed(periods[k], yearId)
  {
    seq(|periods|, k requires 0 <= k < |periods| => MarkClosed(periods[k], yearId))
  }

  /** Some period of the year is not locked. */
  predicate HasUnlocked(periods: seq<FiscalPeriod>, yearId: Guid)
  {
    exists k :: 0 <= k < |periods| && periods[k].fiscalYearId == yearId && !periods[k].isLocked
  }

  /** CloseFiscalYearAsync: the closed year, unless it is missing or one of
      its periods is not locked. */
  function YearClosing(years: seq<FiscalYear>, periods: seq<FiscalPeriod>, id: Guid): (r: Result<FiscalYear, Fault>)
    ensures r.Ok? <==> GetById(years, YearId, id).Some? && !HasUnlocked(periods, id)
    ensures GetById(years, YearId, id).None? ==> r == Err(NotFound)
    ensures r.Ok? ==> r.value == GetById(years, YearId, id).value.(isClosed := true)
  {
    var year := GetById(years, YearId, id);
    if year.None? then Err(NotFound)
    else if HasUnlocked(periods, id) then Err(PeriodsUnlocked)
    else Ok(year.value.(isClosed := true))
  }

  // ---- The calendar invariant ----

  /** Every year starts before it ends and no two years overlap. */
  predicate YearsValid(years: seq<FiscalYear>)
  {
    UniqueKeys(years, YearId) &&
    (forall k :: 0 <= k < |years| ==> years[k].startDate < years[k].endDate) &&
    (forall i, j :: 0 <= i < |years| && 0 <= j < |years| && i != j ==>
      !Overlap(years[i].startDate, years[i].endDate, years[j].startDate, years[j].endDate))
  }

  /** Every period starts before it ends, belongs to a stored year and lies
      inside it, and no two periods of one year overlap. */
  predicate PeriodsValid(years: seq<FiscalYear>, periods: seq<FiscalPeriod>)
  {
    UniqueKeys(periods, PeriodId) &&
    (forall k :: 0 <= k < |periods| ==> periods[k].startDate < periods[k].endDate) &&
    (forall k :: 0 <= k < |periods| ==> InItsYear(years, periods[k])) &&
    (forall i, j :: 0 <= i < |periods| && 0 <= j < |periods| && i != j && periods[i].fiscalYearId == periods[j].fiscalYearId ==>
      !Overlap(periods[i].startDate, periods[i].endDate, periods[j].startDate, periods[j].endDate))
  }

  predicate InItsYear(years: seq<FiscalYear>, p: FiscalPeriod)
  {
    GetById(years, YearId, p.fiscalYearId).Some? && Within(p, GetById(years, YearId, p.fiscalYearId).value)
  }

  predicate Calendar(years: seq<FiscalYear>, periods: seq<FiscalPeriod>)
  {
    YearsValid(years) && PeriodsValid(years, periods)
  }

  /** A successful year creation keeps the years valid. */
  lemma YearCreationKeepsYears(years: seq<FiscalYear>, y: FiscalYear, generated: Guid)
    requires YearsValid(years) && YearCreation(years, y, generated).Done?
    ensures YearsValid(years + [KeyedYear(y, generated)])
  {
    var ys := years + [KeyedYear(y, generated)];
    forall i, j | 0 <= i < |ys| && 0 <= j < |ys| && i != j
      ensures !Overlap(ys[i].startDate, ys[i].endDate, ys[j].startDate, ys[j].endDate)
    {
      if i == |years| {
        assert !Overlap(y.startDate, y.endDate, years[j].startDate, years[j].endDate);
      } else if j == |years| {
        assert !Overlap(y.startDate, y.endDate, years[i].startDate, years[i].endDate);
      }
    }
  }

  /** A successful year update keeps the years valid. */
  lemma YearUpdateKeepsYears(years: seq<FiscalYear>, y: FiscalYear)
    requires YearsValid(years) && YearUpdate(years, y).Done?
    ensures YearsValid(Replace(years, YearId, y))
  {
    var n := IndexOf(years, YearId, y.id).value;
    var ys := Replace(years, YearId, y);
    assert ys == years[n := y];
    ReplaceKeepsKeys(years, YearId, y);
    forall i, j | 0 <= i < |ys| && 0 <= j < |ys| && i != j
      ensures !Overlap(ys[i].startDate, ys[i].endDate, ys[j].startDate, ys[j].endDate)
    {
      if i == n {
        assert years[j].id != y.id;
        assert !Overlap(y.startDate, y.endDate, years[j].startDate, years[j].endDate);
      } else if j == n {
        assert years[i].id != y.id;
        assert !Overlap(y.startDate, y.endDate, years[i].startDate, years[i].endDate);
      }
    }
  }

  /** The date checks of a year update never look at the year's periods:
      shrinking a year can leave a period outside it. */
  lemma YearUpdateMayStrandPeriods(years: seq<FiscalYear>, periods: seq<FiscalPeriod>, y: FiscalYear)
    requires years == [FiscalYear(1, "FY", "FY", 0, 100, false, true)]
    requires periods == [FiscalPeriod(2, "P", 50, 100, false, false, 1)]
    requires y == FiscalYear(1, "FY", "FY", 0, 10, false, true)
    ensures Calendar(years, periods)
    ensures YearUpdate(years, y).Done? && !Calendar(Replace(years, YearId, y), periods)
  {
    assert GetById(years, YearId, 1) == Some(years[0]);
    assert !YearClash(years, y, true);
    assert Replace(years, YearId, y) == [y];
    assert GetById([y], YearId, 1) == Some(y);
    assert !InItsYear([y], periods[0]);
  }

  /** The years a period check sees are the years the invariant sees. */
  lemma PeriodChecksPlace(years: seq<FiscalYear>, periods: seq<FiscalPeriod>, p: FiscalPeriod, skipSelf: bool)
    requires PeriodChecks(years, periods, p, skipSelf).Done?
    ensures p.startDate < p.endDate && InItsYear(years, p)
  {
  }

  /** A successful period creation keeps the calendar valid. */
  lemma PeriodCreationKeepsCalendar(years: seq<FiscalYear>, periods: seq<FiscalPeriod>, p: FiscalPeriod, generated: Guid)
    requires Calendar(years, periods) && PeriodCreation(years, periods, p, generated).Done?
    ensures Calendar(years, periods + [KeyedPeriod(p, generated)])
  {
    var ps := periods + [KeyedPeriod(p, generated)];
    PeriodChecksPlace(years, periods, p, false);
    forall k | 0 <= k < |ps| ensures InItsYear(years, ps[k]) && ps[k].startDate < ps[k].endDate {
      if k < |periods| { assert ps[k] == periods[k]; }
    }
    forall i, j | 0 <= i < |ps| && 0 <= j < |ps| && i != j && ps[i].fiscalYearId == ps[j].fiscalYearId
      ensures !Overlap(ps[i].startDate, ps[i].endDate, ps[j].startDate, ps[j].endDate)
    {
      if i == |periods| {
        assert !Overlap(p.startDate, p.endDate, periods[j].startDate, periods[j].endDate);
      } else if j == |periods| {
        assert !Overlap(p.startDate, p.endDate, periods[i].startDate, periods[i].endDate);
      }
    }
    assert UniqueKeys(ps, PeriodId);
  }

  /** A successful period update keeps the calendar valid. */
  lemma PeriodUpdateKeepsCalendar(years: seq<FiscalYear>, periods: seq<FiscalPeriod>, p: FiscalPeriod)
    requires Calendar(years, periods) && PeriodUpdate(years, periods, p).Done?
    ensures Calendar(years, Replace(periods, PeriodId, p))
  {
    var n := IndexOf(periods, PeriodId, p.id).value;
    var ps := Replace(periods, PeriodId, p);
    assert ps == periods[n := p];
    ReplaceKeepsKeys(periods, PeriodId, p);
    PeriodChecksPlace(years, periods, p, true);
    forall k | 0 <= k < |ps| ensures InItsYear(years, ps[k]) && ps[k].startDate < ps[k].endDate {
      if k != n { assert ps[k] == periods[k]; }
    }
    forall i, j | 0 <= i < |ps| && 0 <= j < |ps| && i != j && ps[i].fiscalYearId == ps[j].fiscalYearId
      ensures !Overlap(ps[i].startDate, ps[i].endDate, ps[j].startDate, ps[j].endDate)
    {
      if i == n {
        assert periods[j].id != p.id;
        assert !Overlap(p.startDate, p.endDate, periods[j].startDate, periods[j].endDate);
      } else if j == n {
        assert periods[i].id != p.id;
        assert !Overlap(p.startDate, p.endDate, periods[i].startDate, periods[i].endDate);
      }
    }
  }

  /** Under the calendar invariant no two periods overlap at all, even in
      different years, since years do not overlap. */
  lemma CalendarPeriodsDisjoint(years: seq<FiscalYear>, periods: seq<FiscalPeriod>)
    requires Calendar(years, periods)
    ensures PeriodStatus.Disjoint(periods)
  {
    forall i, j | 0 <= i < |periods| && 0 <= j < |periods| && i != j
      ensures periods[i].endDate < periods[j].startDate || periods[j].endDate < periods[i].startDate
    {
      var a := periods[i];
      var b := periods[j];
      assert InItsYear(years, a) && InItsYear(years, b);
      if a.fiscalYearId != b.fiscalYearId {
        var ya := IndexOf(years, YearId, a.fiscalYearId).value;
        var yb := IndexOf(years, YearId, b.fiscalYearId).value;
        assert ya != yb;
        assert !Overlap(years[ya].startDate, years[ya].endDate, years[yb].startDate, years[yb].endDate);
      }
    }
  }

  /** Changing only the lock and close flags of periods keeps the calendar. */
  lemma FlagsKeepCalendar(years: seq<FiscalYear>, periods: seq<FiscalPeriod>, flagged: seq<FiscalPeriod>)
    requires Calendar(years, periods) && |flagged| == |periods|
    requires forall k :: 0 <= k < |periods| ==>
      flagged[k] == periods[k].(isLocked := flagged[k].isLocked, isClosed := flagged[k].isClosed)
    ensures Calendar(years, flagged)
  {
    forall k | 0 <= k < |periods| ensures InItsYear(years, flagged[k]) {
      assert InItsYear(years, periods[k]);
    }
  }

  /** Closing a year leaves every period of it closed and every other period
      as it was; the year itself is marked closed too. */
  lemma YearClosingClosesPeriods(years: seq<FiscalYear>, periods: seq<FiscalPeriod>, id: Guid)
    requires YearClosing(years, periods, id).Ok?
    ensures forall k :: 0 <= k < |periods| && periods[k].fiscalYearId == id ==>
      CloseAll(periods, id)[k].isClosed && CloseAll(periods, id)[k].isLocked
    ensures forall k :: 0 <= k < |periods| && periods[k].fiscalYearId != id ==> CloseAll(periods, id)[k] == periods[k]
  {
  }

  /** After a year is closed, the period status reports every date of every
      period of that year as closed. */
  lemma ClosedYearDatesClosed(years: seq<FiscalYear>, periods: seq<FiscalPeriod>, id: Guid, k: nat, date: Ticks)
    requires Calendar(years, periods) && YearClosing(years, periods, id).Ok?
    requires k < |periods| && periods[k].fiscalYearId == id && PeriodStatus.Contains(periods[k], date)
    ensures PeriodStatus.IsPeriodClosed(CloseAll(periods, id), date)
  {
    var closed := CloseAll(periods, id);
    FlagsKeepCalendar(years, periods, closed);
    CalendarPeriodsDisjoint(years, closed);
    PeriodStatus.ClosedFlagOfCover(closed, date, k);
  }

  /** The period table after a lock or unlock of the stored period `p`. */
  lemma RelockedTable(periods: seq<FiscalPeriod>, p: FiscalPeriod, locked: bool)
    requires GetById(periods, PeriodId, p.id) == Some(p)
    ensures var r := Replace(periods, PeriodId, p.(isLocked := locked));
      |r| == |periods| && forall k :: 0 <= k < |periods| ==> r[k] == periods[k].(isLocked := r[k].isLocked)
  {
    var i := IndexOf(periods, PeriodId, p.id).value;
    assert periods[i] == p;
  }

  /** Closing a period blocks the general ledger from saving entries into it,
      yet the period status, which reads only IsClosed, reports no change for
      any date. */
  lemma ClosedPeriodEffect(periods: seq<FiscalPeriod>, entries: seq<JournalEntry>, id: Guid, e: JournalEntry, date: Ticks)
    requires UniqueKeys(periods, PeriodId) && PeriodClosing(periods, entries, id).Ok? && e.fiscalPeriodId == id
    ensures var closed := Replace(periods, PeriodId, PeriodClosing(periods, entries, id).value);
      GeneralLedger.Validate(closed, e) == Ok(false) &&
      PeriodStatus.IsPeriodClosed(closed, date) == PeriodStatus.IsPeriodClosed(periods, date)
  {
    var p := GetById(periods, PeriodId, id).value;
    var locked := p.(isLocked := true);
    ReplaceStores(periods, PeriodId, locked);
    RelockedTable(periods, p, true);
    PeriodStatus.LockIgnored(periods, Replace(periods, PeriodId, locked), date);
  }

  /** Reopening a period undoes closing it: the table is back as it was when
      the period had not been locked. */
  lemma ReopenUndoesClose(years: seq<FiscalYear>, periods: seq<FiscalPeriod>, entries: seq<JournalEntry>, id: Guid)
    requires UniqueKeys(periods, PeriodId) && PeriodClosing(periods, entries, id).Ok?
    requires !GetById(periods, PeriodId, id).value.isLocked
    ensures var closed := Replace(periods, PeriodId, PeriodClosing(periods, entries, id).value);
      var reopened := PeriodReopening(years, closed, entries, id);
      reopened.Ok? ==> Replace(closed, PeriodId, reopened.value) == periods
  {
    var i := IndexOf(periods, PeriodId, id).value;
    var p := periods[i];
    var closed := Replace(periods, PeriodId, p.(isLocked := true));
    assert closed == periods[i := p.(isLocked := true)];
    ReplaceStores(periods, PeriodId, p.(isLocked := true));
    IndexOfFirst(closed, PeriodId, id, i);
    assert periods[i := p] == periods;
  }

  /** The service object: the year and period tables it changes. */
  class PeriodManagementService {
    var years: seq<FiscalYear>
    var periods: seq<FiscalPeriod>

    constructor (years: seq<FiscalYear>, periods: seq<FiscalPeriod>)
      ensures this.years == years && this.periods == periods
    {
      this.years := years;
      this.periods := periods;
    }

    method CreateFiscalYear(y: FiscalYear, generated: Guid) returns (r: Outcome<Fault>)
      requires generated != 0 && GetById(years, YearId, generated).None?
      modifies this`years
      ensures r == YearCreation(old(years), y, generated)
      ensures years == if r.Done? then old(years) + [KeyedYear(y, generated)] else old(years)
    {
      if y.startDate >= y.endDate {
        return Fail(InvalidDates);
      }
      var k := 0;
      while k < |years|
        invariant k <= |years|
        invariant forall j :: 0 <= j < k ==> !YearsMeet(y, years[j], false)
      {
        if y.startDate <= years[k].endDate && y.endDate >= years[k].startDate {
          return Fail(Overlapping);
        }
        k := k + 1;
      }
      var keyed := KeyedYear(y, generated);
      if IndexOf(years, YearId, keyed.id).Some? {
        return Fail(DuplicateKey);
      }
      years := years + [keyed];
      r := Done;
    }

    method UpdateFiscalYear(y: FiscalYear) returns (r: Outcome<Fault>)
      modifies this`years
      ensures r == YearUpdate(old(years), y)
      ensures years == if r.Done? then Replace(old(years), YearId, y) else old(years)
    {
      if y.startDate >= y.endDate {
        return Fail(InvalidDates);
      }
      var k := 0;
      while k < |years|
        invariant k <= |years|
        invariant forall j :: 0 <= j < k ==> !YearsMeet(y, years[j], true)
      {
        if years[k].id != y.id && y.startDate <= years[k].endDate && y.endDate >= years[k].startDate {
          return Fail(Overlapping);
        }
        k := k + 1;
      }
      var i := IndexOf(years, YearId, y.id);
      if i.None? {
        return Fail(NotFound);
      }
      years := years[i.value := y];
      r := Done;
    }

    /** The overlap query of the period checks. */
    method FindClash(p: FiscalPeriod, skipSelf: bool) returns (found: bool)
      ensures found == PeriodClash(periods, p, skipSelf)
    {
      var k := 0;
      while k < |periods|
        invariant k <= |periods|
        invariant forall j :: 0 <= j < k ==> !PeriodsMeet(p, periods[j], skipSelf)
      {
        var fp := periods[k];
        if (!skipSelf || fp.id != p.id) && fp.fiscalYearId == p.fiscalYearId &&
           p.startDate <= fp.endDate && p.endDate >= fp.startDate {
          return true;
        }
        k := k + 1;
      }
      found := false;
    }

    method CreateFiscalPeriod(p: FiscalPeriod, generated: Guid) returns (r: Outcome<Fault>)
      requires generated != 0 && GetById(periods, PeriodId, generated).None?
      modifies this`periods
      ensures r == PeriodCreation(years, old(periods), p, generated)
      ensures periods == if r.Done? then old(periods) + [KeyedPeriod(p, generated)] else old(periods)
    {
      if p.startDate >= p.endDate {
        return Fail(InvalidDates);
      }
      var year := GetById(years, YearId, p.fiscalYearId);
      if year.None? {
        return Fail(NotFound);
      }
      if p.startDate < year.value.startDate || p.endDate > year.value.endDate {
        return Fail(OutsideYear);
      }
      var clash := FindClash(p, false);
      if clash {
        return Fail(Overlapping);
      }
      var keyed := KeyedPeriod(p, generated);
      if IndexOf(periods, PeriodId, keyed.id).Some? {
        return Fail(DuplicateKey);
      }
      periods := periods + [keyed];
      r := Done;
    }

    method UpdateFiscalPeriod(p: FiscalPeriod) returns (r: Outcome<Fault>)
      modifies this`periods
      ensures r == PeriodUpdate(years, old(periods), p)
      ensures periods == if r.Done? then Replace(old(periods), PeriodId, p) else old(periods)
    {
      if p.startDate >= p.endDate {
        return Fail(InvalidDates);
      }
      var year := GetById(years, YearId, p.fiscalYearId);
      if year.None? {
        return Fail(NotFound);
      }
      if p.startDate < year.value.startDate || p.endDate > year.value.endDate {
        return Fail(OutsideYear);
      }
      var clash := FindClash(p, true);
      if clash {
        return Fail(Overlapping);
      }
      var i := IndexOf(periods, PeriodId, p.id);
      if i.None? {
        return Fail(NotFound);
      }
      periods := periods[i.value := p];
      r := Done;
    }

    method CloseFiscalPeriod(id: Guid, entries: seq<JournalEntry>) returns (r: Outcome<Fault>)
      modifies this`periods
      ensures var c := PeriodClosing(old(periods), entries, id);
        r == (if c.Ok? then Done else Fail(c.error)) &&
        periods == if c.Ok? then Replace(old(periods), PeriodId, c.value) else old(periods)
    {
      var i := IndexOf(periods, PeriodId, id);
      if i.None? {
        return Fail(NotFound);
      }
      var k := 0;
      while k < |entries|
        invariant k <= |entries|
        invariant forall j :: 0 <= j < k ==> !AwaitsReview(entries[j], id)
      {
        if entries[k].fiscalPeriodId == id && (entries[k].status == Draft || entries[k].status == Pending) {
          return Fail(OpenEntries);
        }
        k := k + 1;
      }
      var period := periods[i.value];
      period := period.(isLocked := true);
      periods := periods[i.value := period];
      r := Done;
    }

    method ReopenFiscalPeriod(id: Guid, entries: seq<JournalEntry>) returns (r: Outcome<Fault>)
      modifies this`periods
      ensures var c := PeriodReopening(years, old(periods), entries, id);
        r == (if c.Ok? then Done else Fail(c.error)) &&
        periods == if c.Ok? then Replace(old(periods), PeriodId, c.value) else old(periods)
    {
      var i := IndexOf(periods, PeriodId, id);
      if i.None? {
        return Fail(NotFound);
      }
      var period := periods[i.value];
      var year := GetById(years, YearId, period.fiscalYearId);
      if year.None? {
        return Fail(NullReference);
      }
      if year.value.isClosed {
        return Fail(YearClosed);
      }
      var next := NextPeriod(periods, period);
      if next.Some? {
        var used := Exists(entries, (e: JournalEntry) => e.fiscalPeriodId == next.value.id);
        if used {
          return Fail(NextPeriodUsed);
        }
      }
      period := period.(isLocked := false);
      periods := periods[i.value := period];
      r := Done;
    }

    method CloseFiscalYear(id: Guid) returns (r: Outcome<Fault>)
      modifies this`years, this`periods
      ensures var c := YearClosing(old(years), old(periods), id);
        r == (if c.Ok? then Done else Fail(c.error)) &&
        years == (if c.Ok? then Replace(old(years), YearId, c.value) else old(years)) &&
        periods == if c.Ok? then CloseAll(old(periods), id) else old(periods)
    {
      var y := IndexOf(years, YearId, id);
      if y.None? {
        return Fail(NotFound);
      }
      var k := 0;
      while k < |periods|
        invariant k <= |periods|
        invariant forall j :: 0 <= j < k ==> !(periods[j].fiscalYearId == id && !periods[j].isLocked)
      {
        if periods[k].fiscalYearId == id && !periods[k].isLocked {
          return Fail(PeriodsUnlocked);
        }
        k := k + 1;
      }
      ghost var before := periods;
      k := 0;
      while k < |periods|
        invariant k <= |periods| && |periods| == |before| && years == old(years)
        invariant forall j :: 0 <= j < k ==> periods[j] == MarkClosed(before[j], id)
        invariant forall j :: k <= j < |periods| ==> periods[j] == before[j]
      {
        if periods[k].fiscalYearId == id {
          var period := periods[k];
          period := period.(isClosed := true);
          periods := periods[k := period];
        }
        k := k + 1;
      }
      assert periods == CloseAll(before, id);
      var fiscalYear := years[y.value];
      fiscalYear := fiscalYear.(isClosed := true);
      years := years[y.value := fiscalYear];
      r := Done;
    }
  }
}
