// The general-ledger service (Areas/Accounting/Services/GeneralLedgerService.cs):
// validation of a journal entry, entry numbering, the list filter and
// ordering, and the create/update/delete/approve/reject operations with
// their status guards. The entry table holds each entry with its lines; the
// period table is read only. Transactions are not modelled: each operation
// is one atomic change of the entry table. The clock is a parameter.

module GeneralLedger {
  import opened Wrappers
  import opened DotNet
  import opened Sorting
  import opened Ledger
  import opened Repository

  function EntryId(e: JournalEntry): nat { e.id }

  function PeriodId(p: FiscalPeriod): nat { p.id }

  /** The period an entry is booked in, if the period table has it. */
  function PeriodOf(periods: seq<FiscalPeriod>, e: JournalEntry): Option<FiscalPeriod>
  {
    GetById(periods, PeriodId, e.fiscalPeriodId)
  }

  predicate IsOpen(p: FiscalPeriod) { !p.isLocked && !p.isClosed }

  /** The debit and credit sums differ by less than 0.0001. */
  predicate LinesBalance(lines: seq<JournalLine>)
  {
    Abs(TotalDebit(lines) - TotalCredit(lines)) < 0.0001
  }

  /** ValidateJournalEntryAsync; a period id with no period dereferences null. */
  function Validate(periods: seq<FiscalPeriod>, e: JournalEntry): (r: Result<bool, Fault>)
    ensures r.Err? <==> PeriodOf(periods, e).None?
    ensures r.Err? ==> r.error == NullReference
    ensures r == Ok(true) <==> PeriodOf(periods, e).Some? && IsOpen(PeriodOf(periods, e).value) && LinesBalance(e.lines)
  {
    var period := PeriodOf(periods, e);
    if period.None? then Err(NullReference)
    else if period.value.isLocked || period.value.isClosed then Ok(false)
    else Ok(Abs(TotalDebit(e.lines) - TotalCredit(e.lines)) < 0.0001)
  }

  /** Validation does not depend on the order of the lines. */
  lemma ValidateIgnoresLineOrder(periods: seq<FiscalPeriod>, e: JournalEntry, lines: seq<JournalLine>)
    requires multiset(lines) == multiset(e.lines)
    ensures Validate(periods, e.(lines := lines)) == Validate(periods, e)
  {
    SumPermutation(lines, e.lines, (l: JournalLine) => l.debit);
    SumPermutation(lines, e.lines, (l: JournalLine) => l.credit);
  }

  function SwapSides(l: JournalLine): JournalLine { l.(debit := l.credit, credit := l.debit) }

  function SwapAll(lines: seq<JournalLine>): (r: seq<JournalLine>)
    ensures |r| == |lines|
  {
    if lines == [] then [] else [SwapSides(lines[0])] + SwapAll(lines[1..])
  }

  lemma {:induction false} SwapAllTotals(lines: seq<JournalLine>)
    ensures TotalDebit(SwapAll(lines)) == TotalCredit(lines)
    ensures TotalCredit(SwapAll(lines)) == TotalDebit(lines)
  {
    if lines != [] {
      SwapAllTotals(lines[1..]);
      assert SwapAll(lines)[1..] == SwapAll(lines[1..]);
    }
  }

  /** Exchanging the debit and credit of every line keeps validity. */
  lemma ValidateSwapSides(periods: seq<FiscalPeriod>, e: JournalEntry)
    ensures Validate(periods, e.(lines := SwapAll(e.lines))) == Validate(periods, e)
  {
    SwapAllTotals(e.lines);
  }

  /** `now.ToString("yyyyMM")` for the civil year and month of the clock. */
  function YearMonth(year: nat, month: nat): (ym: string)
    requires 1 <= year <= 9999 && 1 <= month <= 12
    ensures |ym| == 6 && AllDigits(ym)
  {
    ZeroPaddedWidth(year, 4);
    ZeroPaddedWidth(month, 2);
    ZeroPaddedDigits(year, 4);
    ZeroPaddedDigits(month, 2);
    ZeroPadded(year, 4) + ZeroPadded(month, 2)
  }

  function Numbers(entries: seq<JournalEntry>): (ns: seq<string>)
    ensures |ns| == |entries| && forall k :: 0 <= k < |entries| ==> ns[k] == entries[k].number
  {
    if entries == [] then [] else [entries[0].number] + Numbers(entries[1..])
  }

  /** The stored numbers of the month: those that start with `ym`. */
  function OfMonth(ym: string, numbers: seq<string>): (r: seq<string>)
    ensures forall k :: 0 <= k < |r| ==> ym <= r[k]
  {
    Where(numbers, (n: string) => ym <= n)
  }

  /** The entry number for a sequence value: `{yearMonth}{sequence:D4}`. */
  function NumberFor(ym: string, sequence: int): string
  {
    ym + FormatD(sequence, 4)
  }

  /** The sequence a number for `ym` carries, read back as the generator reads it. */
  lemma NumberForParses(ym: string, sequence: int)
    requires |ym| == 6 && InInt32(sequence)
    ensures var n := NumberFor(ym, sequence);
      ym <= n && |n| >= 10 && TryParseInt(n[6..]) == Some(sequence)
  {
    var n := NumberFor(ym, sequence);
    assert n[6..] == FormatD(sequence, 4);
    FormatParseRoundTrip(sequence, 4);
    if sequence < 0 {
      ZeroPaddedDigits(-sequence, 4);
      NatDigitsMinWidth(-sequence, 4);
    } else {
      NatDigitsMinWidth(sequence, 4);
    }
  }

  lemma NatDigitsMinWidth(m: nat, width: nat)
    ensures |ZeroPadded(m, width)| >= width
  {
  }

  /** As written: the suffix of the ordinally greatest number of the month. */
  function LastSequenceAsWritten(ym: string, numbers: seq<string>): (r: Option<int>)
    requires |ym| == 6
    ensures OfMonth(ym, numbers) == [] ==> r.None?
    ensures r.Some? ==> InInt32(r.value) && exists n :: n in numbers && ym <= n && TryParseInt(n[6..]) == r
  {
    var month := OfMonth(ym, numbers);
    WhereMembers(numbers, (n: string) => ym <= n);
    var last := MaxString(month);
    if last.None? then None
    else
      assert ym <= last.value;
      TryParseInt(last.value[6..])
  }

  /** GenerateJournalEntryNumberAsync as written. Its `je => je.Number`
      argument to FindAllAsync lands on the include-builder parameter and is
      left out: the query is the month filter and the descending order by
      number. */
  function NextNumberAsWritten(ym: string, numbers: seq<string>): (n: string)
    requires |ym| == 6
    ensures ym <= n
  {
    var last := LastSequenceAsWritten(ym, numbers);
    NumberFor(ym, if last.Some? then Wrap32(last.value + 1) else 1)
  }

  /** Once the month reaches sequence 10000, the ordinal maximum is the
      shorter "…9999" again, so the generator hands out a number that is
      already taken. */
  lemma NumberCollisionAsWritten(ym: string, numbers: seq<string>)
    requires ym == "202401" && numbers == ["2024019999", "20240110000"]
    ensures NextNumberAsWritten(ym, numbers) == numbers[1]
  {
    LastSequenceIs9999(ym, numbers);
    var last := LastSequenceAsWritten(ym, numbers).value;
    AfterLastSequence(ym, numbers, last);
    FormatNextSequence(last + 1, 4);
    JoinedNumber(ym, FormatD(last + 1, 4), numbers[1]);
  }

  lemma JoinedNumber(ym: string, suffix: string, number: string)
    requires ym == "202401" && suffix == "10000" && number == "20240110000"
    ensures ym + suffix == number
  {
    assert |ym + suffix| == |number|;
    forall k | 0 <= k < |number| ensures (ym + suffix)[k] == number[k] {
      if k < 6 { assert (ym + suffix)[k] == ym[k]; } else { assert (ym + suffix)[k] == suffix[k - 6]; }
    }
  }

  lemma AfterLastSequence(ym: string, numbers: seq<string>, last: int)
    requires |ym| == 6 && InInt32(last + 1) && LastSequenceAsWritten(ym, numbers) == Some(last)
    ensures NextNumberAsWritten(ym, numbers) == ym + FormatD(last + 1, 4)
  {
  }

  lemma LastSequenceIs9999(ym: string, numbers: seq<string>)
    requires ym == "202401" && numbers == ["2024019999", "20240110000"]
    ensures LastSequenceAsWritten(ym, numbers) == Some(9999)
  {
    BothOfMonth();
    OrdinalMaximum();
    assert "2024019999"[6..] == "9999";
    ParseLastSequence();
  }

  lemma BothOfMonth()
    ensures OfMonth("202401", ["2024019999", "20240110000"]) == ["2024019999", "20240110000"]
  {
    var p := (n: string) => "202401" <= n;
    assert p("2024019999") && p("20240110000");
    assert Where(["20240110000"], p) == ["20240110000"] by {
      assert ["20240110000"][1..] == [];
    }
    assert ["2024019999", "20240110000"][1..] == ["20240110000"];
  }

  lemma OrdinalMaximum()
    ensures MaxString(["2024019999", "20240110000"]) == Some("2024019999")
  {
    var x := "2024019999";
    var y := "20240110000";
    assert x[..6] == y[..6];
    StrLeAt(x, y, 6);
    var m := MaxString([x, y]);
    assert StrLe([x, y][0], m.value);
  }

  lemma ParseLastSequence()
    ensures TryParseInt("9999") == Some(9999)
  {
    assert AllDigits("9999");
    assert DigitsValue("9999") == 9999 by {
      assert "9999"[..3] == "999" && "999"[..2] == "99" && "99"[..1] == "9" && "9"[..0] == "";
    }
    ParseUnsigned("9999");
  }

  lemma FormatNextSequence(n: int, width: nat)
    requires n == 10000 && width == 4
    ensures FormatD(n, width) == "10000"
  {
    assert NatDigits(1) == "1";
    assert NatDigits(10) == "10";
    assert NatDigits(100) == "100";
    assert NatDigits(1000) == "1000";
    assert NatDigits(10000) == "10000";
  }

  /** Two numbers of one month and one length, with digit suffixes, are in
      ordinal order only if their suffixes are in numeric order. */
  lemma SuffixFollowsOrder(x: string, y: string, j: nat)
    requires |x| == |y| && j <= |x| && x[..j] == y[..j]
    requires AllDigits(x[j..]) && AllDigits(y[j..]) && StrLe(x, y)
    ensures DigitsValue(x[j..]) <= DigitsValue(y[j..])
  {
    var i := j;
    while i < |x| && x[i] == y[i]
      invariant j <= i <= |x| && x[..i] == y[..i]
      decreases |x| - i
    {
      assert x[..i + 1] == x[..i] + [x[i]] && y[..i + 1] == y[..i] + [y[i]];
      i := i + 1;
    }
    if i == |x| {
      assert x == x[..i] && y == y[..i];
    } else if x[i] < y[i] {
      assert x[j..][..i - j] == x[j..i] == y[j..i] == y[j..][..i - j];
      DigitsValueOrder(x[j..], y[j..], i - j);
    } else {
      StrLeAt(x, y, i);
      assert false;
    }
  }

  /** Every stored number of the month is the month followed by four digits. */
  predicate FourDigitMonth(ym: string, numbers: seq<string>)
  {
    forall k :: 0 <= k < |numbers| && ym <= numbers[k] ==> |numbers[k]| == 10 && AllDigits(numbers[k][6..])
  }

  /** Under that shape, the last sequence as written is the suffix value of
      the ordinally greatest number of the month, below 10000. */
  lemma LastSequenceOfFourDigits(ym: string, numbers: seq<string>) returns (l: string, v: nat)
    requires |ym| == 6 && FourDigitMonth(ym, numbers) && OfMonth(ym, numbers) != []
    ensures MaxString(OfMonth(ym, numbers)) == Some(l)
    ensures l in numbers && ym <= l && |l| == 10 && AllDigits(l[6..])
    ensures v == DigitsValue(l[6..]) && v < 10000
    ensures LastSequenceAsWritten(ym, numbers) == Some(v as int)
  {
    WhereMembers(numbers, (n: string) => ym <= n);
    l := MaxString(OfMonth(ym, numbers)).value;
    var suffix := l[6..];
    DigitsValueBound(suffix);
    assert Pow10(4) == 10000;
    v := DigitsValue(suffix);
    ParseUnsigned(suffix);
  }

  /** A number of the month with sequence `v + 1` is not ordinally at most
      a four-digit number of the month whose suffix is worth `v`. */
  lemma NextSequenceAbove(ym: string, l: string, v: nat)
    requires |ym| == 6 && ym <= l && |l| == 10 && AllDigits(l[6..]) && v == DigitsValue(l[6..]) && v < 10000
    ensures var next := NumberFor(ym, v + 1); |next| != 10 || !StrLe(next, l)
  {
    var next := NumberFor(ym, v + 1);
    NumberForParses(ym, v + 1);
    assert next[6..] == FormatD(v + 1, 4);
    ZeroPaddedDigits(v + 1, 4);
    if |next| == 10 && StrLe(next, l) {
      assert next[..6] == ym == l[..6];
      SuffixFollowsOrder(next, l, 6);
      assert false;
    }
  }

  /** As long as every stored number of the month is the month followed by
      four digits, the generator as written hands out a number that is not
      stored yet. */
  lemma NextNumberAsWrittenFresh(ym: string, numbers: seq<string>)
    requires |ym| == 6 && FourDigitMonth(ym, numbers)
    ensures NextNumberAsWritten(ym, numbers) !in numbers
  {
    var month := OfMonth(ym, numbers);
    WhereMembers(numbers, (n: string) => ym <= n);
    var next := NextNumberAsWritten(ym, numbers);
    if month == [] {
      NumberForParses(ym, 1);
      assert next !in month;
    } else {
      var l, v := LastSequenceOfFourDigits(ym, numbers);
      assert next == NumberFor(ym, v + 1);
      NumberForParses(ym, v + 1);
      NextSequenceAbove(ym, l, v);
      assert next in numbers ==> next in month && |next| == 10;
    }
  }

  /** The sequence a stored number carries, when it has one for `ym`. */
  function SequenceOf(ym: string, n: string): Option<int>
  {
    if ym <= n && |n| >= 6 then TryParseInt(n[6..]) else None
  }

  /** The greatest sequence value among the month's numbers. */
  function MaxSequence(ym: string, numbers: seq<string>): (r: Option<int>)
    ensures forall k :: 0 <= k < |numbers| && SequenceOf(ym, numbers[k]).Some? ==>
      r.Some? && SequenceOf(ym, numbers[k]).value <= r.value
    ensures r.Some? ==> InInt32(r.value)
  {
    if numbers == [] then None
    else
      var rest := MaxSequence(ym, numbers[1..]);
      var here := SequenceOf(ym, numbers[0]);
      assert forall k :: 1 <= k < |numbers| ==> numbers[k] == numbers[1..][k - 1];
      if here.None? then rest
      else if rest.None? || rest.value < here.value then here
      else rest
  }

  /** The entry number generator with the month's greatest sequence taken by
      value rather than by string order. */
  function NextNumber(ym: string, numbers: seq<string>): (n: string)
    ensures ym <= n
  {
    var last := MaxSequence(ym, numbers);
    NumberFor(ym, if last.Some? then Wrap32(last.value + 1) else 1)
  }

  /** The number is the month prefix and the next sequence: one more than the
      greatest parsable sequence of the month, or 1 when there is none. */
  lemma NextNumberShape(ym: string, numbers: seq<string>)
    requires |ym| == 6
    requires var m := MaxSequence(ym, numbers); m.None? || m.value < Int32Max
    ensures var n := NextNumber(ym, numbers);
      var m := MaxSequence(ym, numbers);
      ym <= n && SequenceOf(ym, n) == Some(if m.Some? then m.value + 1 else 1)
  {
    var m := MaxSequence(ym, numbers);
    NumberForParses(ym, if m.Some? then m.value + 1 else 1);
  }

  /** Until the sequence would overflow, a generated number is never one
      that is already stored. */
  lemma NextNumberFresh(ym: string, numbers: seq<string>)
    requires |ym| == 6
    requires var m := MaxSequence(ym, numbers); m.None? || m.value < Int32Max
    ensures NextNumber(ym, numbers) !in numbers
  {
    NextNumberShape(ym, numbers);
  }

  /** BuildJournalEntryFilter: an absent bound or status constrains nothing;
      present bounds are inclusive. */
  predicate EntryFilter(fromDate: Option<Ticks>, toDate: Option<Ticks>, status: Option<EntryStatus>, e: JournalEntry)
  {
    (fromDate.None? || e.entryDate >= fromDate.value) &&
    (toDate.None? || e.entryDate <= toDate.value) &&
    (status.None? || e.status == status.value)
  }

  function Matches(fromDate: Option<Ticks>, toDate: Option<Ticks>, status: Option<EntryStatus>): JournalEntry -> bool
  {
    (e: JournalEntry) => EntryFilter(fromDate, toDate, status, e)
  }

  /** With no bound and no status every entry is listed. */
  lemma NoFilterKeepsAll(entries: seq<JournalEntry>)
    ensures Where(entries, Matches(None, None, None)) == entries
  {
    WhereAll(entries, Matches(None, None, None));
  }

  /** BuildJournalEntryOrderBy: by date, then creation time, newest first. */
  function EntryOrderKey(e: JournalEntry): seq<int> { [e.entryDate, e.createdAt] }

  function OrderEntries(s: seq<JournalEntry>): (r: seq<JournalEntry>)
    ensures multiset(r) == multiset(s) && SortedBy(r, EntryOrderKey, true)
  {
    SortBy(s, EntryOrderKey, true)
  }

  /** GetJournalEntriesAsync. */
  function ListEntries(entries: seq<JournalEntry>, fromDate: Option<Ticks>, toDate: Option<Ticks>,
                       status: Option<EntryStatus>, pageIndex: int, pageSize: int): (r: Paged<JournalEntry>)
    requires pageSize > 0
    ensures r.totalCount == |Where(entries, Matches(fromDate, toDate, status))| && |r.items| <= pageSize
  {
    GetPaged(entries, pageIndex, pageSize, Some(Matches(fromDate, toDate, status)), Some(OrderEntries))
  }

  /** A listed page holds only stored entries that match the filter, newest
      first, and the count is that of all matching entries. */
  lemma ListedEntries(entries: seq<JournalEntry>, fromDate: Option<Ticks>, toDate: Option<Ticks>,
                      status: Option<EntryStatus>, pageIndex: int, pageSize: int)
    requires pageSize > 0
    ensures forall x :: x in ListEntries(entries, fromDate, toDate, status, pageIndex, pageSize).items ==>
      x in entries && EntryFilter(fromDate, toDate, status, x)
    ensures SortedBy(ListEntries(entries, fromDate, toDate, status, pageIndex, pageSize).items, EntryOrderKey, true)
    ensures ListEntries(entries, fromDate, toDate, status, pageIndex, pageSize).totalCount ==
      |Where(entries, Matches(fromDate, toDate, status))|
  {
    var filtered := Where(entries, Matches(fromDate, toDate, status));
    var ordered := OrderEntries(filtered);
    var items := ListEntries(entries, fromDate, toDate, status, pageIndex, pageSize).items;
    assert items == PageOf(ordered, pageIndex, pageSize);
    PageWithin(ordered, pageIndex, pageSize, EntryOrderKey, true);
    WhereMembers(entries, Matches(fromDate, toDate, status));
    forall x | x in items ensures x in entries && EntryFilter(fromDate, toDate, status, x) {
      assert x in multiset(ordered);
      assert x in filtered;
    }
  }

  /** The row of an entry in the table, if stored. */
  function Stored(entries: seq<JournalEntry>, id: Guid): Option<JournalEntry>
  {
    GetById(entries, EntryId, id)
  }

  /** The entry table with the row of `e`'s id replaced by `e`. */
  function Put(entries: seq<JournalEntry>, e: JournalEntry): seq<JournalEntry>
  {
    Replace(entries, EntryId, e)
  }

  /** CreateJournalEntryAsync: the entry saved when validation passes, with
      its totals recomputed, status Draft, the clock's creation time, the
      number GenerateJournalEntryNumberAsync gives and the key Add gives an
      entry left at Guid.Empty. */
  function Created(entries: seq<JournalEntry>, periods: seq<FiscalPeriod>, e: JournalEntry,
                   ym: string, now: Ticks, generated: Guid): (r: Result<JournalEntry, Fault>)
    requires |ym| == 6
    ensures r.Ok? <==> Validate(periods, e) == Ok(true) && Stored(entries, StoredKey(e.id, generated)).None?
    ensures r.Ok? ==> SavedAsDraft(e.(id := StoredKey(e.id, generated)), r.value) && r.value.createdAt == now
  {
    var valid := Validate(periods, e);
    var id := StoredKey(e.id, generated);
    if valid.Err? then Err(valid.error)
    else if !valid.value then Err(ValidationFailed)
    else if Stored(entries, id).Some? then Err(DuplicateKey)
    else Ok(e.(id := id, totalDebit := TotalDebit(e.lines), totalCredit := TotalCredit(e.lines),
               status := Draft, createdAt := now, number := NextNumberAsWritten(ym, Numbers(entries))))
  }

  /** Create succeeds exactly for a valid entry whose stored key is free (an
      entry left at Guid.Empty with a fresh generated key always is); the
      saved entry is a Draft whose totals are the line sums, which balance,
      and whose number belongs to the month and, while every number of the
      month is the month and four digits, is not stored yet. */
  lemma CreatedEntry(entries: seq<JournalEntry>, periods: seq<FiscalPeriod>, e: JournalEntry, ym: string, now: Ticks,
                     generated: Guid)
    requires |ym| == 6
    ensures var r := Created(entries, periods, e, ym, now, generated);
      r.Ok? <==> Validate(periods, e) == Ok(true) && Stored(entries, StoredKey(e.id, generated)).None?
    ensures e.id == 0 && Stored(entries, generated).None? ==>
      Created(entries, periods, e, ym, now, generated) != Err(DuplicateKey)
    ensures var r := Created(entries, periods, e, ym, now, generated);
      r.Ok? ==> SavedAsDraft(e.(id := StoredKey(e.id, generated)), r.value) && r.value.createdAt == now
    ensures var r := Created(entries, periods, e, ym, now, generated);
      r.Ok? ==> ym <= r.value.number
    ensures var r := Created(entries, periods, e, ym, now, generated);
      r.Ok? && FourDigitMonth(ym, Numbers(entries)) ==> r.value.number !in Numbers(entries)
  {
    var numbers := Numbers(entries);
    var last := LastSequenceAsWritten(ym, numbers);
    NumberForParses(ym, if last.Some? then Wrap32(last.value + 1) else 1);
    if FourDigitMonth(ym, numbers) {
      NextNumberAsWrittenFresh(ym, numbers);
    }
  }

  /** `saved` is `e` as a Draft with balanced totals that are its line sums. */
  predicate SavedAsDraft(e: JournalEntry, saved: JournalEntry)
  {
    saved.status == Draft && saved.id == e.id && saved.lines == e.lines &&
    saved.fiscalPeriodId == e.fiscalPeriodId &&
    saved.totalDebit == TotalDebit(e.lines) && saved.totalCredit == TotalCredit(e.lines) &&
    Abs(saved.totalDebit - saved.totalCredit) < 0.0001
  }

  predicate HasStatus(s: Option<JournalEntry>, a: EntryStatus, b: EntryStatus)
  {
    s.Some? && (s.value.status == a || s.value.status == b)
  }

  /** UpdateJournalEntryAsync: only a stored Draft or Rejected entry may be
      replaced, by a valid one, which is saved with fresh totals as a Draft
      whatever status it was handed with. */
  function Updated(entries: seq<JournalEntry>, periods: seq<FiscalPeriod>, e: JournalEntry): (r: Result<JournalEntry, Fault>)
    ensures r.Ok? <==> HasStatus(Stored(entries, e.id), Draft, Rejected) && Validate(periods, e) == Ok(true)
    ensures Stored(entries, e.id).None? ==> r == Err(NotFound)
    ensures r.Ok? ==> SavedAsDraft(e, r.value) && r.value.(status := e.status) == e.(totalDebit := r.value.totalDebit, totalCredit := r.value.totalCredit)
  {
    var existing := Stored(entries, e.id);
    if existing.None? then Err(NotFound)
    else if existing.value.status != Draft && existing.value.status != Rejected then Err(WrongStatus)
    else
      var valid := Validate(periods, e);
      if valid.Err? then Err(valid.error)
      else if !valid.value then Err(ValidationFailed)
      else Ok(e.(totalDebit := TotalDebit(e.lines), totalCredit := TotalCredit(e.lines), status := Draft))
  }

  /** DeleteJournalEntryAsync's guard: the stored entry must be Draft or Rejected. */
  function Deleted(entries: seq<JournalEntry>, id: Guid): (r: Outcome<Fault>)
    ensures r.Done? <==> HasStatus(Stored(entries, id), Draft, Rejected)
    ensures Stored(entries, id).None? ==> r == Fail(NotFound)
  {
    var existing := Stored(entries, id);
    if existing.None? then Fail(NotFound)
    else if existing.value.status != Draft && existing.value.status != Rejected then Fail(WrongStatus)
    else Done
  }

  /** A deletion removes the entry, with its lines, and keeps every other entry. */
  lemma DeletionRemoves(entries: seq<JournalEntry>, id: Guid)
    requires UniqueKeys(entries, EntryId) && Deleted(entries, id).Done?
    ensures Stored(DeleteById(entries, EntryId, id), id).None?
    ensures |DeleteById(entries, EntryId, id)| == |entries| - 1
    ensures forall k :: 0 <= k < |entries| && entries[k].id != id ==> entries[k] in DeleteById(entries, EntryId, id)
  {
    DeleteByIdEffect(entries, EntryId, id);
  }

  /** The stored entry may be approved: it is Draft or Pending and its period
      exists and is open. */
  predicate Approvable(entries: seq<JournalEntry>, periods: seq<FiscalPeriod>, id: Guid)
  {
    var s := Stored(entries, id);
    HasStatus(s, Draft, Pending) && PeriodOf(periods, s.value).Some? && IsOpen(PeriodOf(periods, s.value).value)
  }

  /** The stored entry awaits review but its period is locked or closed. */
  predicate InShutPeriod(entries: seq<JournalEntry>, periods: seq<FiscalPeriod>, id: Guid)
  {
    var s := Stored(entries, id);
    HasStatus(s, Draft, Pending) && PeriodOf(periods, s.value).Some? && !IsOpen(PeriodOf(periods, s.value).value)
  }

  /** ApproveJournalEntryAsync: the entry becomes Approved by the user at the
      clock's time and nothing else about it changes; a Draft or Pending entry
      in a locked or closed period is refused. */
  function ApprovedEntry(entries: seq<JournalEntry>, periods: seq<FiscalPeriod>, id: Guid, userId: string,
                         now: Ticks): (r: Result<JournalEntry, Fault>)
    ensures r.Ok? <==> Approvable(entries, periods, id)
    ensures r.Ok? ==> r.value.status == Approved && r.value.approvedById == Some(userId) && r.value.approvedAt == Some(now)
    ensures r.Ok? ==> r.value.(status := Draft, approvedById := None, approvedAt := None) ==
                      Stored(entries, id).value.(status := Draft, approvedById := None, approvedAt := None)
    ensures InShutPeriod(entries, periods, id) ==> r == Err(PeriodLocked)
  {
    var existing := Stored(entries, id);
    if existing.None? then Err(NotFound)
    else
      var e := existing.value;
      if e.status != Draft && e.status != Pending then Err(WrongStatus)
      else
        var period := PeriodOf(periods, e);
        if period.None? then Err(NullReference)
        else if period.value.isLocked || period.value.isClosed then Err(PeriodLocked)
        else Ok(e.(status := Approved, approvedById := Some(userId), approvedAt := Some(now)))
  }

  /** RejectJournalEntryAsync: unlike approval there is no period check; the
      entry becomes Rejected with the rejecting user, the time and the reason, and
      nothing else about it changes. */
  function RejectedEntry(entries: seq<JournalEntry>, id: Guid, userId: string, reason: string,
                         now: Ticks): (r: Result<JournalEntry, Fault>)
    ensures r.Ok? <==> HasStatus(Stored(entries, id), Draft, Pending)
    ensures r.Ok? ==> r.value.status == Rejected && r.value.rejectionReason == Some(reason) &&
                      r.value.approvedById == Some(userId) && r.value.approvedAt == Some(now)
    ensures r.Ok? ==> r.value.(status := Draft, approvedById := None, approvedAt := None, rejectionReason := None) ==
                      Stored(entries, id).value.(status := Draft, approvedById := None, approvedAt := None, rejectionReason := None)
  {
    var existing := Stored(entries, id);
    if existing.None? then Err(NotFound)
    else
      var e := existing.value;
      if e.status != Draft && e.status != Pending then Err(WrongStatus)
      else Ok(e.(status := Rejected, approvedById := Some(userId), approvedAt := Some(now), rejectionReason := Some(reason)))
  }

  /** A rejected entry can be edited again and then approved afresh: an
      Update makes it a Draft, which approval accepts. */
  lemma RejectedCanBeResubmitted(entries: seq<JournalEntry>, periods: seq<FiscalPeriod>, id: Guid, userId: string,
                                 reason: string, now: Ticks)
    requires UniqueKeys(entries, EntryId)
    requires var r := RejectedEntry(entries, id, userId, reason, now);
      r.Ok? && Validate(periods, r.value) == Ok(true)
    ensures var rejected := RejectedEntry(entries, id, userId, reason, now).value;
      var stored := Put(entries, rejected);
      var updated := Updated(stored, periods, rejected);
      updated.Ok? && ApprovedEntry(Put(stored, updated.value), periods, id, userId, now).Ok?
  {
    var rejected := RejectedEntry(entries, id, userId, reason, now).value;
    ReplaceStores(entries, EntryId, rejected);
    var stored := Put(entries, rejected);
    var updated := Updated(stored, periods, rejected);
    assert updated.Ok?;
    ReplaceStores(stored, EntryId, updated.value);
  }

  /** The service object: the entry table it changes and the period table it reads. */
  class GeneralLedgerService {
    var entries: seq<JournalEntry>
    var periods: seq<FiscalPeriod>

    constructor (entries: seq<JournalEntry>, periods: seq<FiscalPeriod>)
      ensures this.entries == entries && this.periods == periods
    {
      this.entries := entries;
      this.periods := periods;
    }

    method ValidateJournalEntry(e: JournalEntry) returns (r: Result<bool, Fault>)
      ensures r == Validate(periods, e)
    {
      var period := GetById(periods, PeriodId, e.fiscalPeriodId);
      if period.None? {
        return Err(NullReference);
      }
      if period.value.isLocked || period.value.isClosed {
        return Ok(false);
      }
      var totalDebit := TotalDebit(e.lines);
      var totalCredit := TotalCredit(e.lines);
      r := Ok(Abs(totalDebit - totalCredit) < 0.0001);
    }

    /** Creates an entry; the clock gives the time and its civil year and month. */
    method CreateJournalEntry(e: JournalEntry, year: nat, month: nat, now: Ticks, generated: Guid)
      returns (r: Result<JournalEntry, Fault>)
      requires 1 <= year <= 9999 && 1 <= month <= 12
      requires generated != 0 && Stored(entries, generated).None?
      modifies this`entries
      ensures r == Created(old(entries), periods, e, YearMonth(year, month), now, generated)
      ensures entries == if r.Ok? then old(entries) + [r.value] else old(entries)
    {
      var valid := ValidateJournalEntry(e);
      if valid.Err? {
        return Err(valid.error);
      }
      if !valid.value {
        return Err(ValidationFailed);
      }
      var entry := e.(id := StoredKey(e.id, generated));
      entry := entry.(totalDebit := TotalDebit(e.lines));
      entry := entry.(totalCredit := TotalCredit(e.lines));
      entry := entry.(status := Draft);
      entry := entry.(createdAt := now);
      entry := entry.(number := NextNumberAsWritten(YearMonth(year, month), Numbers(entries)));
      if IndexOf(entries, EntryId, entry.id).Some? {
        return Err(DuplicateKey);
      }
      entries := entries + [entry];
      r := Ok(entry);
    }

    method UpdateJournalEntry(e: JournalEntry) returns (r: Result<JournalEntry, Fault>)
      modifies this`entries
      ensures r == Updated(old(entries), periods, e)
      ensures entries == if r.Ok? then Put(old(entries), r.value) else old(entries)
    {
      var i := IndexOf(entries, EntryId, e.id);
      if i.None? {
        return Err(NotFound);
      }
      var existing := entries[i.value];
      if existing.status != Draft && existing.status != Rejected {
        return Err(WrongStatus);
      }
      var valid := ValidateJournalEntry(e);
      if valid.Err? {
        return Err(valid.error);
      }
      if !valid.value {
        return Err(ValidationFailed);
      }
      var entry := e;
      entry := entry.(totalDebit := TotalDebit(e.lines));
      entry := entry.(totalCredit := TotalCredit(e.lines));
      entry := entry.(status := Draft);
      entries := entries[i.value := entry];
      r := Ok(entry);
    }

    method DeleteJournalEntry(id: Guid) returns (r: Outcome<Fault>)
      modifies this`entries
      ensures r == Deleted(old(entries), id)
      ensures entries == if r.Done? then DeleteById(old(entries), EntryId, id) else old(entries)
    {
      var i := IndexOf(entries, EntryId, id);
      if i.None? {
        return Fail(NotFound);
      }
      var existing := entries[i.value];
      if existing.status != Draft && existing.status != Rejected {
        return Fail(WrongStatus);
      }
      entries := entries[..i.value] + entries[i.value + 1..];
      r := Done;
    }

    method ApproveJournalEntry(id: Guid, userId: string, now: Ticks) returns (r: Result<JournalEntry, Fault>)
      modifies this`entries
      ensures r == ApprovedEntry(old(entries), periods, id, userId, now)
      ensures entries == if r.Ok? then Put(old(entries), r.value) else old(entries)
    {
      var i := IndexOf(entries, EntryId, id);
      if i.None? {
        return Err(NotFound);
      }
      var entry := entries[i.value];
      if entry.status != Draft && entry.status != Pending {
        return Err(WrongStatus);
      }
      var period := GetById(periods, PeriodId, entry.fiscalPeriodId);
      if period.None? {
        return Err(NullReference);
      }
      if period.value.isLocked || period.value.isClosed {
        return Err(PeriodLocked);
      }
      entry := entry.(status := Approved);
      entry := entry.(approvedById := Some(userId));
      entry := entry.(approvedAt := Some(now));
      entries := entries[i.value := entry];
      r := Ok(entry);
    }

    method RejectJournalEntry(id: Guid, userId: string, reason: string, now: Ticks) returns (r: Result<JournalEntry, Fault>)
      modifies this`entries
      ensures r == RejectedEntry(old(entries), id, userId, reason, now)
      ensures entries == if r.Ok? then Put(old(entries), r.value) else old(entries)
    {
      var i := IndexOf(entries, EntryId, id);
      if i.None? {
        return Err(NotFound);
      }
      var entry := entries[i.value];
      if entry.status != Draft && entry.status != Pending {
        return Err(WrongStatus);
      }
      entry := entry.(status := Rejected);
      entry := entry.(approvedById := Some(userId));
      entry := entry.(approvedAt := Some(now));
      entry := entry.(rejectionReason := Some(reason));
      entries := entries[i.value := entry];
      r := Ok(entry);
    }
  }
}
