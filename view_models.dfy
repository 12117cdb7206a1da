// The two journal-entry view models and their balance checks: the entry
// form of Areas/Accounting/ViewModels/JournalEntryViewModels.cs (tolerance
// 0.01), and the simpler entry model of AccountingViewModels.cs, whose line
// list may be null (tolerance 0.0001).

module EntryForms {
  import opened Wrappers
  import opened Ledger

  /** JournalEntryLineViewModel of the entry form. */
  datatype LineForm = LineForm(
    id: Guid,
    accountId: Guid,
    costCenterId: Option<Guid>,
    description: string,
    debit: real,
    credit: real,
    taxRateId: Option<Guid>,
    taxAmount: Option<real>,
    withholdingTaxId: Option<Guid>)

  /** JournalEntryViewModel of the entry form. The posting date is a day, as
      the controller uses it (a DateOnly), and `number` is the EntryNumber the
      controller sets; the view model declares PostingDate as a DateTime and
      no EntryNumber. */
  datatype EntryForm = EntryForm(
    id: Guid,
    number: string,
    entryDate: Ticks,
    postingDay: nat,
    reference: string,
    description: Option<string>,
    status: EntryStatus,
    clientId: Option<Guid>,
    vendorId: Option<Guid>,
    currency: string,
    exchangeRate: real,
    notes: Option<string>,
    fiscalPeriodId: Guid,
    lines: seq<LineForm>)

  function FormDebit(f: EntryForm): real { Sum(f.lines, (l: LineForm) => l.debit) }

  function FormCredit(f: EntryForm): real { Sum(f.lines, (l: LineForm) => l.credit) }

  /** The form's IsBalanced: the totals differ by less than a cent. */
  predicate IsBalanced(f: EntryForm)
  {
    Abs(FormDebit(f) - FormCredit(f)) < 0.01
  }

  /** A form without lines has zero totals and is balanced. */
  lemma EmptyFormBalanced(f: EntryForm)
    requires f.lines == []
    ensures FormDebit(f) == 0.0 && FormCredit(f) == 0.0 && IsBalanced(f)
  {
  }

  function SwapSides(l: LineForm): LineForm { l.(debit := l.credit, credit := l.debit) }

  function SwapAll(lines: seq<LineForm>): (r: seq<LineForm>)
    ensures |r| == |lines| && forall k :: 0 <= k < |lines| ==> r[k] == SwapSides(lines[k])
  {
    if lines == [] then [] else [SwapSides(lines[0])] + SwapAll(lines[1..])
  }

  lemma {:induction false} SwapAllSums(lines: seq<LineForm>)
    ensures Sum(SwapAll(lines), (l: LineForm) => l.debit) == Sum(lines, (l: LineForm) => l.credit)
    ensures Sum(SwapAll(lines), (l: LineForm) => l.credit) == Sum(lines, (l: LineForm) => l.debit)
  {
    if lines != [] {
      SwapAllSums(lines[1..]);
      assert SwapAll(lines)[1..] == SwapAll(lines[1..]);
    }
  }

  /** Exchanging debit and credit on every line swaps the totals and keeps
      the form as balanced as it was. */
  lemma SwapKeepsBalance(f: EntryForm)
    ensures FormDebit(f.(lines := SwapAll(f.lines))) == FormCredit(f)
    ensures FormCredit(f.(lines := SwapAll(f.lines))) == FormDebit(f)
    ensures IsBalanced(f.(lines := SwapAll(f.lines))) == IsBalanced(f)
  {
    SwapAllSums(f.lines);
  }
}

module EntryModels {
  import opened Wrappers
  import opened Ledger
  import EntryForms

  /** JournalEntryLineViewModel of AccountingViewModels.cs. */
  datatype LineInput = LineInput(
    id: Guid,
    accountId: Guid,
    costCenterId: Option<Guid>,
    description: string,
    debitAmount: real,
    creditAmount: real,
    taxRateId: Option<Guid>,
    taxAmount: Option<real>)

  /** JournalEntryViewModel of AccountingViewModels.cs; `lines` may be null. */
  datatype EntryInput = EntryInput(
    id: Guid,
    date: Ticks,
    description: string,
    reference: string,
    fiscalPeriodId: Guid,
    lines: Option<seq<LineInput>>)

  /** `Lines?.Sum(l => l.DebitAmount) ?? 0`. */
  function InputDebit(m: EntryInput): real
  {
    if m.lines.None? then 0.0 else Sum(m.lines.value, (l: LineInput) => l.debitAmount)
  }

  function InputCredit(m: EntryInput): real
  {
    if m.lines.None? then 0.0 else Sum(m.lines.value, (l: LineInput) => l.creditAmount)
  }

  predicate IsBalanced(m: EntryInput)
  {
    Abs(InputDebit(m) - InputCredit(m)) < 0.0001
  }

  /** Null or empty lines give zero totals, and zero totals balance. */
  lemma NoLinesBalanced(m: EntryInput)
    requires m.lines.None? || m.lines == Some([])
    ensures InputDebit(m) == 0.0 && InputCredit(m) == 0.0 && IsBalanced(m)
  {
  }

  /** Whatever balances to 0.0001 balances to the form's cent for the same totals. */
  lemma StricterThanForm(m: EntryInput, f: EntryForms.EntryForm)
    requires InputDebit(m) == EntryForms.FormDebit(f) && InputCredit(m) == EntryForms.FormCredit(f)
    ensures IsBalanced(m) ==> EntryForms.IsBalanced(f)
  {
  }

  /** The converse fails: totals a tenth of a cent apart pass the form's check only. */
  lemma FormLooserThanModel(m: EntryInput, f: EntryForms.EntryForm)
    requires InputDebit(m) == EntryForms.FormDebit(f) && InputCredit(m) == EntryForms.FormCredit(f)
    requires InputDebit(m) == InputCredit(m) + 0.001
    ensures EntryForms.IsBalanced(f) && !IsBalanced(m)
  {
  }
}
