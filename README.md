# Accounting ledger rules and build-error auto-fixer, in Dafny

This project models two parts of an ASP.NET Core accounting application and its helper scripts, and proves properties of the model.

**The build-error auto-fixer** (`Scripts/github_actions_monitor.py`). It polls a CI provider for failed runs, parses the build log, and repairs two kinds of C# compiler error by editing source files. The model covers these parts:

- The error taxonomy (`ErrorTaxonomy`). This is the first-match classification of a message against the fixed pattern table.
- The two-strategy log parser (`LogParser`). A located diagnostic pattern is tried first, with a general `error CS…:` pattern as the fallback.
- The fixers (`AutoFix`):
  - locating the target file;
  - capturing the property and type names;
  - finding the class body by counting braces;
  - inferring a property type from the name;
  - inserting the `using` lines and the property;
  - the single-line cast rewrite;
  - the fix counter.
- The run-id watermark of the polling loop (`Monitor`, class `RunMonitor`).

Each regular expression is a hand-written matcher over `seq<char>`. The file tree is a `map<string, string>` from path to content, and the repository root is a parameter.

**The accounting rules** (`Areas/Accounting/...`, `Data/Repository/Repository.cs`). The model covers these parts:

- The journal-entry workflow: the service's guards and transitions (`GeneralLedger`) and the controller's guards (`JournalController`). Draft, Pending, Approved, Rejected and Posted are the states, and Pending and PendingApproval are one value.
- The fiscal-year and period calendar (`PeriodManagement`, `PeriodStatus`).
- Ledger aggregation:
  - the trial balance (`TrialBalance`);
  - the report builders (`FinancialReporting`);
  - the statements built from account-code ranges (`FinancialStatements`).
- The account and cost-center hierarchies and the link table between them (`ChartOfAccounts`, `CostCenters`, `Catalog`).
- Smaller pieces:
  - tax arithmetic (`Tax`);
  - the client and vendor search filters (`ClientsVendors`);
  - the audit CSV export (`Audit`);
  - repository paging (`Repository`);
  - the view-model balance checks (`EntryForms`, `EntryModels`).

**How the model stands in for the source:**

- Every service call is one atomic change to in-memory tables. These are sequences of rows, with a class per service whose fields are those tables.
- Money (C# `decimal`) is `real`.
- `DateTime` is an `int` count of ticks.
- A `Guid` is a `nat`, and `Guid.Empty` is 0.
- The controllers and services create rows with `Id = Guid.Empty`, and EF Core's key generator then gives the row a new key when it is added. That key is the parameter `generated` of each create operation, required nonzero and not yet stored. A row whose id is already set keeps it (`Repository.StoredKey`).
- Journal lines are carried inside their entry.
- `Repository.Table` is the generic repository object with its Add, Update and Delete. Each service class holds its tables as `seq` fields instead of `Table` objects, because most service operations do more than one repository call: they assign a level, check a guard or touch a link table as well. Their contracts use the functions that `Table`'s contracts use (`GetById`, `Replace`, `DeleteById`, `StoredKey`), so each rule is written once as a function and the two-line update is repeated.
- The clock, the current user and other ambient values are parameters.
- The shared pieces are `Wrappers`, `Text`, `DotNet`, `Sorting` and `Ledger`.

Seven fields are named in the code under a name the model class does not declare, under two names, or under another type:

- `DebitAmount`/`CreditAmount` on lines and `Debit`/`Credit` elsewhere;
- `TotalDebit`/`TotalCredit` and `DebitTotal`/`CreditTotal` on entries;
- `je.Date`, read by the list filter and ordering of `GeneralLedgerService.cs:91-92` and `:98` and by `Areas/Accounting/Data/Specifications/AccountingSpecifications.cs:68-74`;
- `CreatedAt`, set at `GeneralLedgerService.cs:115` and read by the ordering at `:98`;
- `ApprovedAt`, set at `GeneralLedgerService.cs:261` and `:285`;
- `PostingDate` of the entry form, which `Areas/Accounting/ViewModels/JournalEntryViewModels.cs:22` declares as a `DateTime` while the controller uses it as a `DateOnly` (`JournalEntriesController.cs:218`, `:286`, `:310`);
- `EntryNumber` of the entry form, set at `JournalEntriesController.cs:216`, which neither view model of `JournalEntryViewModels.cs` declares.

In the first two cases the model treats the two names as one field. The form's `postingDay` is a day, as the controller uses it, and its `number` is the `EntryNumber` the controller sets. `JournalEntry.cs` declares none of the last three. The migration `Data/Migrations/20250611230108_DropJournalEntryDateField.cs:13-26` renamed their columns to `TransactionDate`, `CreatedUtc` and `ApprovedUtc`. The model binds them as follows:

- `CreatedAt` is `createdAt`, the `CreatedUtc` column (also exposed as `CreatedDate`).
- `ApprovedAt` is `approvedAt`, the `ApprovedUtc` column.
- `Date` is `entryDate`, the entry's `EntryDate`, and the model has no `TransactionDate` field.

`Date` is bound to `EntryDate` rather than `TransactionDate` because the journal controller sets only `EntryDate` (`JournalEntriesController.cs:94`, `:143`, `:309`). No service or controller ever assigns `TransactionDate`; only the seed data does. Bound to `TransactionDate`, every entry the application creates would carry `DateTime.MinValue`. The date filter would then exclude all of them for any `fromDate` later than `DateTime.MinValue`, and the newest-first ordering would fall back on the creation time alone.

`JournalEntriesController.cs` calls service members that `GeneralLedgerService.cs` does not declare, for example `AddJournalEntryAsync` and `PostJournalEntryAsync`. The model follows the code, not the names: each controller action is a decision function that returns the response and the service calls it would make. Where the action's effect depends on a service member that does exist, the model proves that effect against the service model. Two calls also differ in their arguments: the controller calls `ApproveJournalEntryAsync(id)` (`JournalEntriesController.cs:506`) and `RejectJournalEntryAsync(id, rejectionReason)` (`:538`), while the service declares `ApproveJournalEntryAsync(Guid id, string userId)` (`GeneralLedgerService.cs:238`) and `RejectJournalEntryAsync(Guid id, string userId, string reason)` (`:269`). The model passes the reason as the service's `reason` and leaves `userId` a free parameter of `ApproveCallStatusAccepted` and `RejectCallAccepted`.

The Edit action reads the status it posts on after the update. It sets the form's status on the tracked entry and then calls `UpdateJournalEntryAsync` (`JournalEntriesController.cs:312`, `:345`). That update either refuses the entry, since the tracked row now carries the form's status, or sets it to Draft (`GeneralLedgerService.cs:166-168`, `:182`). So the test for Posted at `JournalEntriesController.cs:348` never holds, and `PostJournalEntryAsync` is never called from Edit. `JournalController.Edit` and `JournalController.EditResponse` model this, and `JournalController.EditNeverPosts` proves it (see Findings).

`JournalEntriesController.cs:124`, `:287` and `:564` call `_periodManagementService.IsPeriodClosedAsync`, which `IPeriodManagementService` (`Areas/Accounting/Services/PeriodManagementService.cs:11-25`) does not declare. The model binds these calls to `PeriodStatus.IsPeriodClosed`, which models the method of that name in `Areas/Accounting/Services/PeriodStatusService.cs:28` (declared by `IPeriodValidator`).

## Model

Functions that only compute a value have no row of their own when the methods proved to return them, or the lemmas about them, carry the property. This covers the report builders (`...Of`), the folds of the scan and the fixer (`Scan`, `HandleRun`, `HandleAll`, `FixAll`, `AfterFix`), the matchers (`MatchAt`, `Search`, `FindAll`, `ExtractSpec`, `Classify`), the link-table loops (`Removed`, `Added`, `Assigned`) and the controller's entry builders (`NewEntry`, `Edited`). The table names the lemma or method that states each property.

| member | source | states |
|---|---|---|
| Text.Contains | Scripts/github_actions_monitor.py:316 | the substring test holds exactly when the text occurs at some position |
| Text.ReplaceAbsent | Scripts/github_actions_monitor.py:396 | replacing a non-empty text that does not occur leaves the line unchanged |
| Text.ReplaceKeepsOut | Scripts/github_actions_monitor.py:396 | replacement brings in no character absent from both the line and the replacement, so a line stays free of newlines |
| Text.SplitOn | Scripts/github_actions_monitor.py:385 | a split always yields at least one piece |
| Text.JoinSplit | Scripts/github_actions_monitor.py:385-401 | joining the pieces of a split with the separator gives back the text |
| Text.SplitPiecesFree | Scripts/github_actions_monitor.py:385 | no piece of a split contains the separator |
| Text.SplitNoSeparator | Scripts/github_actions_monitor.py:385 | a text without the separator splits into itself alone |
| Text.SplitAfterPiece | Scripts/github_actions_monitor.py:385 | a separator-free first piece followed by the separator splits off as the first piece |
| Text.SplitJoin | Scripts/github_actions_monitor.py:385-401 | splitting a join of separator-free pieces gives the pieces back |
| Text.TrimStartPy | Scripts/github_actions_monitor.py:192 | the result is a suffix of the text, every dropped character is white space, and the result does not start with white space |
| Text.TrimEndPy | Scripts/github_actions_monitor.py:192 | the result is a prefix of the text, every dropped character is white space, and the result does not end with white space |
| Text.StripPy | Scripts/github_actions_monitor.py:192 | a stripped message has white space at neither end |
| Text.TrimDotNet | Areas/Accounting/Services/ClientVendorService.cs:164 | `String.Trim()` as Enum.TryParse applies it: the result is a contiguous part of the input with no white space at either end, and an input without white space is kept whole |
| Text.TrimDotNetPadded | Areas/Accounting/Services/ClientVendorService.cs:164 | one more white-space character at either end is trimmed away |
| Text.Repeat | Areas/Accounting/Services/GeneralLedgerService.cs:154 | n copies of the character, n long |
| Text.IndexOfChar | Scripts/github_actions_monitor.py:317 | the index found holds the character and no earlier index does; none means the character is absent |
| DotNet.Wrap32 | Data/Repository/Repository.cs:163 | the wrapped value is a 32-bit integer congruent to the input modulo 2^32, and in-range values are unchanged |
| DotNet.DigitChar | Areas/Accounting/Services/GeneralLedgerService.cs:154 | the character is an ASCII digit whose value is the digit |
| DotNet.NatDigits | Areas/Accounting/Services/GeneralLedgerService.cs:154 | a number prints as at least one ASCII digit |
| DotNet.NatDigitsValue | Areas/Accounting/Services/GeneralLedgerService.cs:154 | the printed digits of a number read back as that number |
| DotNet.LeadingZeroValue | Areas/Accounting/Services/GeneralLedgerService.cs:154 | a leading zero does not change a digit string's value |
| DotNet.ZeroPaddedValue | Areas/Accounting/Services/GeneralLedgerService.cs:154 | any number of leading zeros does not change a digit string's value |
| DotNet.TrimNumberWhite | Areas/Accounting/Services/GeneralLedgerService.cs:149 | trimming never lengthens the text |
| DotNet.TrimNothing | Areas/Accounting/Services/GeneralLedgerService.cs:149 | a text with no surrounding white space is not trimmed |
| DotNet.TryParseInt | Areas/Accounting/Services/FinancialStatementService.cs:228-230 | a successful parse yields a 32-bit integer |
| DotNet.ZeroPaddedDigits | Areas/Accounting/Services/GeneralLedgerService.cs:154 | the D-format digits are non-empty ASCII digits whose value is the number |
| DotNet.NatDigitsFit | Areas/Accounting/Services/GeneralLedgerService.cs:154 | a number below 10^k prints in at most k digits |
| DotNet.DigitsValueBound | Areas/Accounting/Services/GeneralLedgerService.cs:149 | a string of k decimal digits is worth less than 10^k |
| DotNet.DigitsValueOrder | Areas/Accounting/Services/GeneralLedgerService.cs:149 | among digit strings of one length, the first digit where they differ decides which is worth more |
| DotNet.ZeroPaddedWidth | Areas/Accounting/Services/GeneralLedgerService.cs:154 | a number below 10^w printed as Dw is exactly w characters long |
| DotNet.ParseUnsigned | Areas/Accounting/Services/GeneralLedgerService.cs:149 | a digit string whose value fits parses to that value |
| DotNet.ParseNegative | Areas/Accounting/Services/GeneralLedgerService.cs:149 | a minus sign before a fitting digit string parses to the negated value |
| DotNet.FormatParseRoundTrip | Areas/Accounting/Services/GeneralLedgerService.cs:149-154 | what ToString("Dw") writes, Int32.TryParse reads back, for every 32-bit value |
| DotNet.FormatParseNegative | Areas/Accounting/Services/GeneralLedgerService.cs:149-154 | the round trip for negative values |
| DotNet.FormatParseUnsigned | Areas/Accounting/Services/GeneralLedgerService.cs:149-154 | the round trip for non-negative values |
| Sorting.KeyLeTotal | Areas/Accounting/Services/TrialBalanceService.cs:58 | any two sort keys are comparable |
| Sorting.KeyLeTrans | Areas/Accounting/Services/TrialBalanceService.cs:58 | key order is transitive |
| Sorting.KeyLeReflexive | Areas/Accounting/Services/TrialBalanceService.cs:58 | every key is ordered before or at itself |
| Sorting.KeyLeAntisymmetric | Areas/Accounting/Services/TrialBalanceService.cs:58 | keys ordered both ways are equal |
| Sorting.StringKey | Areas/Accounting/Services/TrialBalanceService.cs:58 | a string's ordinal key is its characters' codes, one per character |
| Sorting.StringKeyInjective | Areas/Accounting/Services/TrialBalanceService.cs:58 | distinct strings have distinct keys |
| Sorting.InOrderTotal | Data/Repository/Repository.cs:157-160 | in either direction any two keys can be ordered |
| Sorting.InOrderTrans | Data/Repository/Repository.cs:157-160 | in either direction the order is transitive |
| Sorting.Insert | Data/Repository/Repository.cs:157-160 | inserting into a sorted list gives a sorted list with exactly one more occurrence of the element |
| Sorting.SortBy | Areas/Accounting/Services/TrialBalanceService.cs:58 | OrderBy and OrderByDescending return a sorted permutation of their input |
| Sorting.SortByMembers | Areas/Accounting/Services/TrialBalanceService.cs:58 | sorting keeps exactly the elements it was given |
| Sorting.SortedSlice | Data/Repository/Repository.cs:163-166 | any slice of a sorted list is sorted |
| Sorting.MaxString | Areas/Accounting/Services/GeneralLedgerService.cs:146 | OrderByDescending then FirstOrDefault: none exactly for no strings, otherwise a member that no string exceeds in ordinal order |
| Ledger.SumAppend | Areas/Accounting/Services/TrialBalanceService.cs:44-45 | the sum over two runs of lines is the sum of their sums |
| Ledger.SumCongruent | Areas/Accounting/Services/TrialBalanceService.cs:44-45 | sums of projections that agree on every line are equal |
| Ledger.SumNonNegative | Areas/Accounting/Services/TrialBalanceService.cs:44-45 | a sum of non-negative amounts is non-negative |
| Ledger.SumDifference | Areas/Accounting/Services/TrialBalanceService.cs:44-56 | the sum of the lines' differences is the difference of the sums |
| Ledger.SumPermutation | Areas/Accounting/Services/TrialBalanceService.cs:40-45 | a sum does not depend on the order of the lines |
| Ledger.Abs | Areas/Accounting/ViewModels/JournalEntryViewModels.cs:96 | Math.Abs: non-negative and equal to the value or its negation |
| Ledger.AllLinesMember | Areas/Accounting/Models/JournalEntry.cs:126 | every line of every entry is in the journal-line table |
| Repository.IndexOf | Data/Repository/Repository.cs:71 | the position found holds the key and no earlier row does; no position means no row has the key |
| Repository.GetById | Data/Repository/Repository.cs:57-72 | a row is returned exactly when some row has the key, and the returned row has that key |
| Repository.RemoveAt | Data/Repository/Repository.cs:210-217 | the rows before the position stay put and the rows after it move down by one |
| Repository.DeleteByIdEffect | Data/Repository/Repository.cs:210-217 | after Delete(id) no row has that key, every other row survives, nothing new appears, keys stay unique, and a missing key changes nothing |
| Repository.DeleteById | Data/Repository/Repository.cs:210-217 | deleting never adds a row: the result is no longer than the table and holds only its rows |
| Repository.Where | Data/Repository/Repository.cs:108-123 | the filtered rows are no more than the table and all satisfy the predicate |
| Repository.WhereMembers | Data/Repository/Repository.cs:108-123 | a row is in the filtered result exactly when it is in the table and satisfies the predicate, and the result keeps table order |
| Repository.WhereAll | Data/Repository/Repository.cs:108-123 | a predicate every row satisfies filters nothing out |
| Repository.WhereAppend | Data/Repository/Repository.cs:108-123 | filtering distributes over concatenation of tables |
| Repository.First | Data/Repository/Repository.cs:91-106 | a row is found exactly when some row satisfies the predicate, and the found row satisfies it |
| Repository.FirstIsEarliest | Data/Repository/Repository.cs:91-106 | the row found is the earliest row that satisfies the predicate |
| Repository.Skip | Data/Repository/Repository.cs:163 | Skip(n) drops min(max(n,0), count) rows |
| Repository.Take | Data/Repository/Repository.cs:164 | Take(n) keeps the first min(max(n,0), count) rows |
| Repository.TotalPages | Data/Repository/Repository.cs:154 | zero pages exactly for zero rows; otherwise the smallest page count whose pages hold all rows |
| Repository.GetPaged | Data/Repository/Repository.cs:135-169 | the reported count is the number of filtered rows and a page holds at most pageSize rows |
| Repository.PageSlice | Data/Repository/Repository.cs:163-166 | without 32-bit overflow, page p is the slice from (p-1)*size to p*size of the ordered rows |
| Repository.PageOf | Data/Repository/Repository.cs:163-166 | a page holds at most pageSize rows (none for a negative size), all taken from the ordered rows |
| Repository.PageStart | Data/Repository/Repository.cs:163 | the wrapped 32-bit offset, clamped, is a position inside the ordered rows |
| Repository.PageIsSlice | Data/Repository/Repository.cs:163-166 | every page, whatever the offset arithmetic yields, is a contiguous run of the ordered rows |
| Repository.PageWithin | Data/Repository/Repository.cs:157-166 | a page holds only ordered rows and keeps their sort order |
| Repository.PageBeyondLast | Data/Repository/Repository.cs:154-166 | a page index past the last page gives an empty page |
| Repository.PagesPrefix | Data/Repository/Repository.cs:163-166 | the first p pages, concatenated, are the first p*size ordered rows |
| Repository.AllPages | Data/Repository/Repository.cs:154-166 | pages 1 to TotalPages, concatenated, give back exactly the ordered rows |
| Repository.Replace | Data/Repository/Repository.cs:181-199 | updating keeps the number of rows |
| Repository.ReplaceStores | Data/Repository/Repository.cs:181-199 | after updating an existing entity, looking its key up returns the new entity and rows with other keys are untouched |
| Repository.IndexOfFirst | Data/Repository/Repository.cs:71 | the lookup finds the first row carrying the key |
| Repository.ReplaceKeepsKeys | Data/Repository/Repository.cs:181-199 | an update keeps primary keys unique |
| Repository.Table.constructor | Data/Repository/Repository.cs:51-55 | a new table is empty |
| Repository.Table.Add | Data/Repository/Repository.cs:171-174 | AddAsync then SaveAsync: an entity left at Guid.Empty is stored under the generated key and always added; an entity with a set key is appended unless that key is taken, which is a duplicate key and leaves the rows unchanged |
| Repository.Table.Update | Data/Repository/Repository.cs:181-199 | the row with the entity's key is replaced; a missing key is reported as not found |
| Repository.Table.Delete | Data/Repository/Repository.cs:210-217 | the rows become DeleteById of the old rows |
| EntryForms.EmptyFormBalanced | Areas/Accounting/ViewModels/JournalEntryViewModels.cs:78-96 | a form with no lines has zero debit and credit totals and is balanced |
| EntryForms.SwapAll | Areas/Accounting/ViewModels/JournalEntryViewModels.cs:78 | every line keeps its place with debit and credit exchanged |
| EntryForms.SwapKeepsBalance | Areas/Accounting/ViewModels/JournalEntryViewModels.cs:88-96 | exchanging debit and credit on every line exchanges the two totals and leaves IsBalanced as it was |
| EntryModels.NoLinesBalanced | Areas/Accounting/ViewModels/AccountingViewModels.cs:55-61 | a null or empty line list gives zero totals and balances |
| EntryModels.StricterThanForm | Areas/Accounting/ViewModels/AccountingViewModels.cs:61 | for equal totals, balancing within 0.0001 implies balancing within the form's 0.01 |
| EntryModels.FormLooserThanModel | Areas/Accounting/ViewModels/AccountingViewModels.cs:61 | totals 0.001 apart pass the form's check and fail this model's, so the two checks differ |
| PeriodStatus.IsPeriodClosed | Areas/Accounting/Services/PeriodStatusService.cs:31-43 | a date no period covers counts as closed; otherwise the answer is the IsClosed flag of the first covering period |
| PeriodStatus.ClosedFlagOfCover | Areas/Accounting/Services/PeriodStatusService.cs:31-43 | with non-overlapping periods the answer is the IsClosed flag of whichever period covers the date |
| PeriodStatus.LockIgnored | Areas/Accounting/Services/PeriodStatusService.cs:42 | the IsLocked flags play no part: locking or unlocking periods never changes the answer |
| PeriodStatus.Earliest | Areas/Accounting/Services/PeriodStatusService.cs:34 | when some period covers the date, there is a first one that does |
| TrialBalance.LinesOfMembers | Areas/Accounting/Services/TrialBalanceService.cs:35-36 | a line is selected exactly when its entry lies in the window and the line matches the cost-center filter |
| TrialBalance.LinesOfOnlyKept | Areas/Accounting/Services/TrialBalanceService.cs:35-36 | entries the filter rejects can be dropped beforehand without changing the selected lines |
| TrialBalance.LinesOfSame | Areas/Accounting/Services/TrialBalanceService.cs:35-36 | two entry tables that agree on kept entries and their lines select the same lines |
| TrialBalance.Window | Areas/Accounting/Services/TrialBalanceService.cs:32-35 | the window predicate for from 00:00:00 through to 23:59:59 |
| TrialBalance.WindowByDay | Areas/Accounting/Services/TrialBalanceService.cs:32-35 | a posting is in the window exactly when its day lies from `from` through `to`, except postings later than 23:59:59 on the last day |
| TrialBalance.NoLinesNoSums | Areas/Accounting/Services/TrialBalanceService.cs:40-46 | an account with no lines has no group and zero sums |
| TrialBalance.GroupKeys | Areas/Accounting/Services/TrialBalanceService.cs:40 | the group keys are exactly the accounts that have lines, each once |
| TrialBalance.SumIndicator | Areas/Accounting/Services/TrialBalanceService.cs:40-46 | over distinct keys an amount counted only at one key sums to that amount when the key is present and to 0 otherwise |
| TrialBalance.SumByAccount | Areas/Accounting/Services/TrialBalanceService.cs:40-46 | grouping by account loses nothing: the per-account sums add up to the sum over all lines |
| TrialBalance.RowsFor | Areas/Accounting/Services/TrialBalanceService.cs:47-57 | one row per matching account, in order, each built from that account and its group |
| TrialBalance.JoinedMembers | Areas/Accounting/Services/TrialBalanceService.cs:47-57 | the join yields exactly a row for each account whose id is a group key |
| TrialBalance.GetTrialBalance | Areas/Accounting/Services/TrialBalanceService.cs:58 | rows come sorted by account code |
| TrialBalance.TrialBalanceRows | Areas/Accounting/Services/TrialBalanceService.cs:29-60 | one row for each chart account with at least one qualifying line and no other, carrying its code, English name, sums and net |
| TrialBalance.NetIsDebitMinusCredit | Areas/Accounting/Services/TrialBalanceService.cs:56 | each row's net is its debit minus its credit, so the nets add up to total debit minus total credit |
| TrialBalance.JoinedSums | Areas/Accounting/Services/TrialBalanceService.cs:47-57 | with unique account ids the joined rows carry the per-account sums |
| TrialBalance.OnlyMatch | Areas/Accounting/Services/TrialBalanceService.cs:47-49 | with unique ids the accounts matching an id are exactly the one lookup finds |
| TrialBalance.NoneMatch | Areas/Accounting/Services/TrialBalanceService.cs:47-49 | an id no account carries matches nothing, so its group drops out |
| TrialBalance.TrialBalanceTotals | Areas/Accounting/Services/TrialBalanceService.cs:29-60 | with unique ids and every line in the chart, the rows' debit and credit totals equal those of the qualifying lines |
| TrialBalance.BalancedEntriesBalance | Areas/Accounting/Services/TrialBalanceService.cs:29-60 | with no cost center, balanced entries give a trial balance whose debits equal its credits |
| TrialBalance.BalancedLines | Areas/Accounting/Services/TrialBalanceService.cs:35-36 | the lines selected from balanced entries are themselves balanced |
| TrialBalance.StatusIgnored | Areas/Accounting/Services/TrialBalanceService.cs:35-36 | entry status plays no part: drafts and posted entries count the same |
| TrialBalance.LinesOf | Areas/Accounting/Services/TrialBalanceService.cs:35-36 | every line selected matches the cost-center filter |
| TrialBalance.Joined | Areas/Accounting/Services/TrialBalanceService.cs:47-57 | every joined row carries as net its debit minus its credit |
| ChartOfAccounts.WithLevel | Areas/Accounting/Services/ChartOfAccountsService.cs:62-73 | only the level changes: 1 without a parent, the parent's level plus one when the parent is found, unchanged when it is not |
| ChartOfAccounts.CreationKeepsLevels | Areas/Accounting/Services/ChartOfAccountsService.cs:60-77 | creating an account under a fresh id that no account names as parent keeps every stored level consistent with its parent's |
| ChartOfAccounts.IsCodeUnique | Areas/Accounting/Services/ChartOfAccountsService.cs:109-115 | without an id, unique exactly when no account has the code; with distinct codes, unique exactly when every account with the code is the one being edited |
| ChartOfAccounts.CodeUniqueExactlyIfDistinct | Areas/Accounting/Services/ChartOfAccountsService.cs:109-115 | with distinct codes stored, the first-match test agrees with the all-accounts reading |
| ChartOfAccounts.CanDelete | Areas/Accounting/Services/ChartOfAccountsService.cs:117-129 | deletable exactly when no journal line posts to the account and it has no children; an account not stored counts as childless |
| ChartOfAccounts.DeletionLeavesNoOrphans | Areas/Accounting/Services/ChartOfAccountsService.cs:99-129 | deleting a stored account the guard allows removes exactly one row, leaves no account whose parent is gone and no line posting to it |
| ChartOfAccounts.AccountsWhere | Areas/Accounting/Services/ChartOfAccountsService.cs:166-173 | no flag returns every account; otherwise exactly the accounts whose IsActive equals the flag, in table order |
| ChartOfAccounts.ChartOfAccountsService.constructor | Areas/Accounting/Services/ChartOfAccountsService.cs:34-42 | the service holds the given account and link tables |
| ChartOfAccounts.ChartOfAccountsService.CreateAccount | Areas/Accounting/Services/ChartOfAccountsService.cs:60-77 | the levelled account, keyed by the generated key when its id is Guid.Empty, is appended and returned; an account left at Guid.Empty always succeeds; a set id that is taken is a duplicate key and nothing changes |
| ChartOfAccounts.ChartOfAccountsService.UpdateAccount | Areas/Accounting/Services/ChartOfAccountsService.cs:80-96 | the stored row is replaced by the levelled account; a missing id is reported as not found |
| ChartOfAccounts.ChartOfAccountsService.DeleteAccount | Areas/Accounting/Services/ChartOfAccountsService.cs:99-106 | the account's row is removed; a missing id changes nothing |
| ChartOfAccounts.ChartOfAccountsService.AddAccountCostCenter | Areas/Accounting/Services/ChartOfAccountsService.cs:136-151 | the link is added once: an existing link is not duplicated |
| ChartOfAccounts.ChartOfAccountsService.RemoveAccountCostCenter | Areas/Accounting/Services/ChartOfAccountsService.cs:154-163 | the matching link is removed; a missing link changes nothing |
| Catalog.LevelFor | Areas/Accounting/Services/CostCenterService.cs:70-80 | the assigned level is 1 without a parent, the parent's level plus one when the parent is found, and the old level when it is not |
| Catalog.GetByIdAppend | Areas/Accounting/Services/CostCenterService.cs:82-83 | appending a row leaves every other key's lookup as it was |
| Catalog.LevelsAppend | Areas/Accounting/Services/CostCenterService.cs:68-86 | adding a fresh-keyed row whose level was assigned against the stored rows, and which no row names as parent, keeps all levels consistent |
| Catalog.CodeIsUnique | Areas/Accounting/Services/CostCenterService.cs:117-123 | a code no row has is unique; without an id, unique exactly when no row has the code |
| Catalog.CodeUniqueExactly | Areas/Accounting/Services/CostCenterService.cs:117-123 | with distinct codes stored, the code is unique exactly when every row with it is the row being edited |
| Catalog.ByActive | Areas/Accounting/Services/CostCenterService.cs:174-181 | no flag returns every row; otherwise exactly the rows whose IsActive equals the flag, in table order |
| Catalog.SubsequenceSelf | Areas/Accounting/Services/CostCenterService.cs:174-181 | the unfiltered table is an order-preserving selection of itself |
| Catalog.WherePartition | Areas/Accounting/Services/CostCenterService.cs:212-213 | a filter and its negation split the rows between them with nothing lost or doubled |
| Catalog.PartitionStep | Areas/Accounting/Services/CostCenterService.cs:212-213 | splitting the head and the rest separately splits the whole |
| Catalog.WhereSame | Areas/Accounting/Services/CostCenterService.cs:174-181 | filters that agree on every row keep the same rows |
| Catalog.WhereWhere | Areas/Accounting/Services/ClientVendorService.cs:70-90 | two filters applied in turn keep the rows that pass both |
| Catalog.AddLink | Areas/Accounting/Services/CostCenterService.cs:144-160 | the pair is stored afterwards, nothing else is added, an already stored pair is not duplicated, and distinct pairs stay distinct |
| Catalog.AddLinkIdempotent | Areas/Accounting/Services/CostCenterService.cs:144-160 | adding a link twice is adding it once |
| Catalog.AddThenRemove | Areas/Accounting/Services/CostCenterService.cs:144-172 | removing a link just added to a table without it gives the table back |
| Catalog.Without | Areas/Accounting/Services/CostCenterService.cs:162-172 | deleting the first row equal to a pair removes exactly one occurrence when present and nothing otherwise |
| Catalog.RemoveLink | Areas/Accounting/Services/CostCenterService.cs:162-172 | an absent pair changes nothing; with distinct pairs exactly that pair disappears and the rest stay distinct |
| Catalog.DistinctWithout | Areas/Accounting/Services/CostCenterService.cs:162-172 | with distinct pairs, deleting one leaves no copy of it |
| Catalog.CenterAccounts | Areas/Accounting/Services/CostCenterService.cs:139-142 | the listed account ids are exactly the accounts linked to the cost center |
| Catalog.AccountCenters | Areas/Accounting/Services/ChartOfAccountsService.cs:131-134 | the listed cost-center ids are exactly the cost centers linked to the account |
| CostCenters.WithLevel | Areas/Accounting/Services/CostCenterService.cs:70-80 | only the level changes: 1 without a parent, the parent's level plus one when the parent is found, unchanged when it is not |
| CostCenters.CreationKeepsLevels | Areas/Accounting/Services/CostCenterService.cs:68-86 | creating a cost center under a fresh id that no row names as parent keeps every stored level consistent |
| CostCenters.UpdateStrandsChildren | Areas/Accounting/Services/CostCenterService.cs:88-105 | update recomputes only the updated row: moving a parent under another cost center leaves its child at a stale level |
| CostCenters.IsCodeUnique | Areas/Accounting/Services/CostCenterService.cs:117-123 | without an id, unique exactly when no cost center has the code; with distinct codes, unique exactly when every holder of the code is the one being edited |
| CostCenters.CodeUniqueExactlyIfDistinct | Areas/Accounting/Services/CostCenterService.cs:117-123 | with distinct codes stored, the first-match test agrees with the all-rows reading |
| CostCenters.CanDelete | Areas/Accounting/Services/CostCenterService.cs:125-137 | deletable exactly when no journal line names the cost center and it has no children; a missing cost center counts as childless |
| CostCenters.DeletionLeavesNoOrphans | Areas/Accounting/Services/CostCenterService.cs:107-137 | deleting a stored cost center the guard allows removes one row and leaves no orphaned child and no line naming it |
| CostCenters.CostCentersWhere | Areas/Accounting/Services/CostCenterService.cs:174-181 | no flag returns every cost center; otherwise exactly those whose IsActive equals the flag, in table order |
| CostCenters.Items | Areas/Accounting/Services/CostCenterService.cs:200-207 | one list item per account, in order, with the account id and "code - name" |
| CostCenters.AssignView | Areas/Accounting/Services/CostCenterService.cs:193-216 | of the first maxAccounts accounts, the available list holds exactly the unlinked and the assigned list exactly the linked ones, each in account order, together all of them once; the selected ids are the linked accounts |
| CostCenters.SplitByLinks | Areas/Accounting/Services/CostCenterService.cs:212-213 | splitting by membership in the linked ids separates unlinked from linked items without loss |
| CostCenters.RemovedEffect | Areas/Accounting/Services/CostCenterService.cs:224-230 | the first loop unlinks exactly the current accounts not chosen, touches no other cost center and keeps pairs distinct |
| CostCenters.Removed | Areas/Accounting/Services/CostCenterService.cs:224-230 | the first loop only removes links, and never one of another cost center |
| CostCenters.SnocMembers | Areas/Accounting/Services/CostCenterService.cs:224-239 | the members of a list are those of its front and its last element |
| CostCenters.RemovedStep | Areas/Accounting/Services/CostCenterService.cs:224-230 | one more step of the first loop removes the last current account's link when it was not chosen |
| CostCenters.AddedEffect | Areas/Accounting/Services/CostCenterService.cs:233-239 | the second loop links exactly the chosen accounts that were not current, touches no other cost center and keeps pairs distinct |
| CostCenters.Added | Areas/Accounting/Services/CostCenterService.cs:233-239 | the second loop keeps every link and adds only links of this cost center to chosen accounts |
| CostCenters.Assigned | Areas/Accounting/Services/CostCenterService.cs:218-240 | the links of every other cost center are exactly as before |
| CostCenters.AssignedExactly | Areas/Accounting/Services/CostCenterService.cs:218-240 | after the assignment the cost center is linked to exactly the chosen accounts, no pair is stored twice, and other cost centers' links are unchanged |
| CostCenters.CostCenterService.constructor | Areas/Accounting/Services/CostCenterService.cs:40-50 | the service holds the given cost-center and link tables |
| CostCenters.CostCenterService.CreateCostCenter | Areas/Accounting/Services/CostCenterService.cs:68-86 | the levelled cost center, keyed by the generated key when its id is Guid.Empty, is appended and returned; a cost center left at Guid.Empty always succeeds; a set id that is taken is a duplicate key and nothing changes |
| CostCenters.CostCenterService.UpdateCostCenter | Areas/Accounting/Services/CostCenterService.cs:88-105 | the stored row is replaced by the levelled cost center; a missing id is reported as not found |
| CostCenters.CostCenterService.DeleteCostCenter | Areas/Accounting/Services/CostCenterService.cs:107-115 | the cost center's row is removed; a missing id changes nothing |
| CostCenters.CostCenterService.AddCostCenterAccount | Areas/Accounting/Services/CostCenterService.cs:144-160 | the link is added once: an existing link is not duplicated |
| CostCenters.CostCenterService.RemoveCostCenterAccount | Areas/Accounting/Services/CostCenterService.cs:162-172 | the matching link is removed; a missing link changes nothing |
| CostCenters.CostCenterService.AssignAccountsToCostCenter | Areas/Accounting/Services/CostCenterService.cs:218-240 | the link table becomes the specified result of both loops, so the cost center is linked to exactly the chosen accounts and no other cost center changes |
| Tax.CalculateTax | Areas/Accounting/Services/TaxService.cs:117-129 | an unknown rate id gives tax 0 and the amount unchanged; otherwise the tax is the rate percentage of the amount, and the amount after tax is always the amount plus the tax |
| Tax.ZeroRateKeepsAmount | Areas/Accounting/Services/TaxService.cs:117-129 | a zero rate, or no rate, leaves the amount as it is |
| Tax.TaxIsAdditive | Areas/Accounting/Services/TaxService.cs:123-127 | the tax and after-tax amount of a sum are the sums of the parts' |
| Tax.TaxNeverLowers | Areas/Accounting/Services/TaxService.cs:123-127 | a non-negative rate never lowers a non-negative amount |
| Tax.CanDeleteTaxRate | Areas/Accounting/Services/TaxService.cs:95-98 | a rate is deletable exactly when no journal line names it |
| Tax.CanDeleteWithholdingTax | Areas/Accounting/Services/TaxService.cs:179-182 | a withholding tax is deletable exactly when no journal line names it |
| Tax.TaxRatesWhere | Areas/Accounting/Services/TaxService.cs:63-70 | no flag returns every rate; otherwise exactly the rates whose IsActive equals the flag, in table order |
| Tax.ActiveTaxRates | Areas/Accounting/Services/TaxService.cs:105-108 | exactly the active rates |
| Tax.ActiveIsFilteredOnTrue | Areas/Accounting/Services/TaxService.cs:63-108 | the active rates are the rates filtered on IsActive = true |
| Tax.WithholdingTaxesWhere | Areas/Accounting/Services/TaxService.cs:147-154 | no flag returns every withholding tax; otherwise exactly those whose IsActive equals the flag, in table order |
| Tax.TaxService.constructor | Areas/Accounting/Services/TaxService.cs:47-55 | the service holds the given tax tables |
| Tax.TaxService.CreateTaxRate | Areas/Accounting/Services/TaxService.cs:72-77 | the rate, keyed by the generated key when its id is Guid.Empty, is appended; a rate left at Guid.Empty always succeeds; a set id that is taken is a duplicate key and nothing changes (AddTaxRateAsync at 110-115 is identical) |
| Tax.TaxService.UpdateTaxRate | Areas/Accounting/Services/TaxService.cs:79-83 | the stored rate is replaced; a missing id is reported as not found |
| Tax.TaxService.DeleteTaxRate | Areas/Accounting/Services/TaxService.cs:85-93 | the rate's row is removed; a missing id changes nothing |
| Tax.TaxService.CreateWithholdingTax | Areas/Accounting/Services/TaxService.cs:156-161 | the withholding tax, keyed by the generated key when its id is Guid.Empty, is appended; one left at Guid.Empty always succeeds; a set id that is taken is a duplicate key and nothing changes (AddWithholdingTaxAsync at 189-194 is identical) |
| Tax.TaxService.UpdateWithholdingTax | Areas/Accounting/Services/TaxService.cs:163-167 | the stored withholding tax is replaced; a missing id is reported as not found |
| Tax.TaxService.DeleteWithholdingTax | Areas/Accounting/Services/TaxService.cs:169-177 | the withholding tax's row is removed; a missing id changes nothing |
| ClientsVendors.NarrowIfIsWhere | Areas/Accounting/Services/ClientVendorService.cs:74-87 | an optional filter step that is skipped only when its filter keeps everything is that filter |
| ClientsVendors.NarrowThree | Areas/Accounting/Services/ClientVendorService.cs:70-90 | three optional filter steps in turn are one filter on their conjunction |
| ClientsVendors.NarrowFour | Areas/Accounting/Services/ClientVendorService.cs:153-181 | four optional filter steps in turn are one filter on their conjunction |
| ClientsVendors.SearchClients | Areas/Accounting/Services/ClientVendorService.cs:70-90 | a client is listed exactly when it is stored and passes every given criterion (term in code or either name, type, active flag); absent or empty criteria filter nothing; table order is kept |
| ClientsVendors.ClientChainIsOneWhere | Areas/Accounting/Services/ClientVendorService.cs:70-90 | the chain of optional Where calls equals one Where on the conjunction of the given criteria |
| ClientsVendors.ParseVendorType | Areas/Accounting/Services/ClientVendorService.cs:164 | after trimming white space, the three member names parse case-sensitively to their values; any other text parses as an Int32 numeral or fails |
| ClientsVendors.RequestedType | Areas/Accounting/Services/ClientVendorService.cs:162-168 | a null or empty type filters on nothing; otherwise the filter is the parsed type, and an unparsable type filters on nothing |
| ClientsVendors.OfferedTypesDoNotParse | Areas/Accounting/Services/ClientVendorService.cs:229-232 | none of the type names the service offers (Supplier, Contractor, ServiceProvider) is an enum member or a numeral |
| ClientsVendors.ParseVendorTypePadded | Areas/Accounting/Services/ClientVendorService.cs:164 | white space around the text does not change what it parses to |
| ClientsVendors.SearchVendors | Areas/Accounting/Services/ClientVendorService.cs:153-181 | a vendor is listed exactly when it is stored and passes every given criterion (term, parsed type, active flag, withholding flag); table order is kept |
| ClientsVendors.VendorChainIsOneWhere | Areas/Accounting/Services/ClientVendorService.cs:153-181 | the chain of optional Where calls equals one Where on the conjunction of the given criteria |
| ClientsVendors.OfferedTypeFiltersNothing | Areas/Accounting/Services/ClientVendorService.cs:162-168 | searching by an offered type name gives the same vendors as giving no type |
| ClientsVendors.ClientsWhere | Areas/Accounting/Services/ClientVendorService.cs:61-68 | no flag returns every client; otherwise exactly those whose IsActive equals the flag, in table order |
| ClientsVendors.VendorsWhere | Areas/Accounting/Services/ClientVendorService.cs:144-151 | no flag returns every vendor; otherwise exactly those whose IsActive equals the flag, in table order |
| ClientsVendors.SearchWithoutCriteria | Areas/Accounting/Services/ClientVendorService.cs:61-90 | the search with no term and no type is the isActive query |
| ClientsVendors.IsClientCodeUnique | Areas/Accounting/Services/ClientVendorService.cs:115-121 | without an id, unique exactly when no client has the code; with distinct codes, unique exactly when every holder of the code is the client being edited |
| ClientsVendors.IsVendorCodeUnique | Areas/Accounting/Services/ClientVendorService.cs:206-212 | without an id, unique exactly when no vendor has the code; with distinct codes, unique exactly when every holder of the code is the vendor being edited |
| ClientsVendors.CanDeleteClient | Areas/Accounting/Services/ClientVendorService.cs:123-126 | deletable exactly when no journal entry names the client |
| ClientsVendors.CanDeleteVendor | Areas/Accounting/Services/ClientVendorService.cs:214-217 | deletable exactly when no journal entry names the vendor |
| ClientsVendors.ClientVendorService.constructor | Areas/Accounting/Services/ClientVendorService.cs:45-53 | the service holds the given client and vendor tables |
| ClientsVendors.ClientVendorService.CreateClient | Areas/Accounting/Services/ClientVendorService.cs:92-97 | the client, keyed by the generated key when its id is Guid.Empty, is appended; a client left at Guid.Empty always succeeds; a set id that is taken is a duplicate key and nothing changes |
| ClientsVendors.ClientVendorService.UpdateClient | Areas/Accounting/Services/ClientVendorService.cs:99-103 | the stored client is replaced; a missing id is reported as not found |
| ClientsVendors.ClientVendorService.DeleteClient | Areas/Accounting/Services/ClientVendorService.cs:105-113 | the client's row is removed; a missing id changes nothing |
| ClientsVendors.ClientVendorService.CreateVendor | Areas/Accounting/Services/ClientVendorService.cs:183-188 | the vendor, keyed by the generated key when its id is Guid.Empty, is appended; a vendor left at Guid.Empty always succeeds; a set id that is taken is a duplicate key and nothing changes |
| ClientsVendors.ClientVendorService.UpdateVendor | Areas/Accounting/Services/ClientVendorService.cs:190-194 | the stored vendor is replaced; a missing id is reported as not found |
| ClientsVendors.ClientVendorService.DeleteVendor | Areas/Accounting/Services/ClientVendorService.cs:196-204 | the vendor's row is removed; a missing id changes nothing |
| Audit.EmptyFilterIsNoFilter | Areas/Accounting/Services/AuditService.cs:99-104 | an empty string filters like a null one, and with no criteria every log passes |
| Audit.LogFilter | Areas/Accounting/Services/AuditService.cs:99-104 | a log passes a date window only when the window's start is not after its end |
| Audit.NewestFirst | Areas/Accounting/Services/AuditService.cs:107-110 | the logs come out as a permutation of the input, newest timestamp first |
| Audit.GetAuditLogs | Areas/Accounting/Services/AuditService.cs:71-90 | a page holds at most pageSize logs |
| Audit.ListedLogs | Areas/Accounting/Services/AuditService.cs:71-110 | a page holds only stored logs that pass the filter, and they are newest first |
| Audit.FirstPageHoldsAll | Areas/Accounting/Services/AuditService.cs:71-90 | when every matching log fits on one page, page 1 holds exactly the matching logs |
| Audit.HeaderOneLine | Areas/Accounting/Services/AuditService.cs:117 | the header holds no line break |
| Audit.CsvFields | Areas/Accounting/Services/AuditService.cs:122 | a data line has six fields |
| Audit.CsvRow | Areas/Accounting/Services/AuditService.cs:122 | a data line holds no line break when none of its fields does |
| Audit.CsvText | Areas/Accounting/Services/AuditService.cs:112-126 | the export starts with the header line and its break |
| Audit.CsvRowsSnoc | Areas/Accounting/Services/AuditService.cs:120-123 | one more log appends its line and a terminator to the data lines |
| Audit.CsvRowsStep | Areas/Accounting/Services/AuditService.cs:120-123 | one loop step extends the text by the next log's line |
| Audit.ExportAuditLogsToCsv | Areas/Accounting/Services/AuditService.cs:112-126 | the exported text is the header line and then one line per log, in input order |
| Audit.RowList | Areas/Accounting/Services/AuditService.cs:120-123 | one data line per log, in input order |
| Audit.JoinFree | Areas/Accounting/Services/AuditService.cs:122 | joining parts that lack a character with another separator gives a line that lacks it |
| Audit.RowsSplit | Areas/Accounting/Services/AuditService.cs:120-123 | when no field holds a line break, the data lines split back into one line per log |
| Audit.DocumentLines | Areas/Accounting/Services/AuditService.cs:114-125 | a header without a line break followed by the data lines splits into the header and the per-log lines |
| Audit.CsvLines | Areas/Accounting/Services/AuditService.cs:112-126 | when no field holds a line break, the export's lines are the header and then one line per log; no logs give the header line alone |
| Audit.CsvColumns | Areas/Accounting/Services/AuditService.cs:122 | a line whose fields hold no comma splits back into its six fields |
| Audit.OccurrencesAppend | Areas/Accounting/Services/AuditService.cs:122 | counting a character over a concatenation adds the counts |
| Audit.OccursSomewhere | Areas/Accounting/Services/AuditService.cs:122 | a character in the text occurs at least once |
| Audit.SplitCount | Areas/Accounting/Services/AuditService.cs:122 | a split has one piece more than the text has separators |
| Audit.JoinCount | Areas/Accounting/Services/AuditService.cs:122 | a join writes a separator between each two parts |
| Audit.JoinCountAt | Areas/Accounting/Services/AuditService.cs:122 | a join holds its separators plus any inside any one part |
| Audit.CommaAddsColumns | Areas/Accounting/Services/AuditService.cs:122 | nothing is quoted, so a comma inside any field splits the line into more than six columns |
| Audit.AuditService.constructor | Areas/Accounting/Services/AuditService.cs:24-30 | the service holds the given log table |
| Audit.AuditService.LogAudit | Areas/Accounting/Services/AuditService.cs:33-48 | the record with the given fields, the current time and the generated key is appended and nothing else changes; a given address wins over the request's; null user or address is stored as empty; unique keys stay unique |
| Audit.AuditService.LogActivity | Areas/Accounting/Services/AuditService.cs:50-69 | exactly one record is appended, under the generated key, with no entity id and no old values, the description as new values, and the request's user and address |
| PeriodManagement.YearCreation | Areas/Accounting/Services/PeriodManagementService.cs:53-73 | creation succeeds exactly when the start precedes the end, no stored year overlaps, and the key the year is stored under (the generated one for Guid.Empty) is free; inverted dates fail first; a year left at Guid.Empty with a fresh generated key is never a duplicate |
| PeriodManagement.YearUpdate | Areas/Accounting/Services/PeriodManagementService.cs:75-95 | an update succeeds exactly when the start precedes the end, no other year overlaps, and the year is stored; inverted dates fail first |
| PeriodManagement.PeriodChecks | Areas/Accounting/Services/PeriodManagementService.cs:115-144 | the checks pass exactly when the dates are ordered, the year exists and contains the period, and no other period of that year overlaps; a missing year is reported as not found |
| PeriodManagement.PeriodCreation | Areas/Accounting/Services/PeriodManagementService.cs:115-149 | creation succeeds exactly when the checks pass and the key the period is stored under (the generated one for Guid.Empty) is free; a period left at Guid.Empty with a fresh generated key is never a duplicate |
| PeriodManagement.PeriodUpdate | Areas/Accounting/Services/PeriodManagementService.cs:151-185 | an update succeeds exactly when the checks, skipping the period itself, pass and the period is stored |
| PeriodManagement.PeriodClosing | Areas/Accounting/Services/PeriodManagementService.cs:187-208 | closing succeeds exactly when the period exists and has no Draft or Pending entry; it sets IsLocked only; a missing period is not found |
| PeriodManagement.NextPeriod | Areas/Accounting/Services/PeriodManagementService.cs:225-228 | the period found is stored, in the same year, and starts one day after the period ends; none means no such period |
| PeriodManagement.FirstIsMember | Areas/Accounting/Services/PeriodManagementService.cs:225-228 | the first match found is a stored row |
| PeriodManagement.PeriodReopening | Areas/Accounting/Services/PeriodManagementService.cs:210-243 | reopening succeeds exactly when the period exists, its year exists and is open, and the next period has no entries; it clears IsLocked only; a missing period is not found |
| PeriodManagement.CloseAll | Areas/Accounting/Services/PeriodManagementService.cs:264-268 | every period of the year gets IsClosed set, the others stay as they were |
| PeriodManagement.MarkClosed | Areas/Accounting/Services/PeriodManagementService.cs:264-268 | closing the year touches only the IsClosed flag of a period, and the flag is then set exactly when it was set already or the period belongs to the year |
| PeriodManagement.YearClosing | Areas/Accounting/Services/PeriodManagementService.cs:245-284 | closing succeeds exactly when the year exists and every one of its periods is locked; the result is the year marked closed |
| PeriodManagement.YearCreationKeepsYears | Areas/Accounting/Services/PeriodManagementService.cs:53-73 | a successful year creation, with the year under its stored key, keeps every year well ordered, non-overlapping and uniquely keyed |
| PeriodManagement.YearUpdateKeepsYears | Areas/Accounting/Services/PeriodManagementService.cs:75-95 | a successful year update keeps every year well ordered and non-overlapping |
| PeriodManagement.YearUpdateMayStrandPeriods | Areas/Accounting/Services/PeriodManagementService.cs:75-95 | the update never checks the year's periods: shrinking a year can leave a period outside it |
| PeriodManagement.PeriodChecksPlace | Areas/Accounting/Services/PeriodManagementService.cs:115-144 | passing the checks puts the period inside a stored year with ordered dates |
| PeriodManagement.PeriodCreationKeepsCalendar | Areas/Accounting/Services/PeriodManagementService.cs:115-149 | a successful period creation, with the period under its stored key, keeps every period inside its year, apart from its year's other periods and uniquely keyed |
| PeriodManagement.PeriodUpdateKeepsCalendar | Areas/Accounting/Services/PeriodManagementService.cs:151-185 | a successful period update keeps the calendar invariant |
| PeriodManagement.CalendarPeriodsDisjoint | Areas/Accounting/Services/PeriodManagementService.cs:115-185 | under the calendar invariant no two periods overlap at all, even across years |
| PeriodManagement.FlagsKeepCalendar | Areas/Accounting/Services/PeriodManagementService.cs:187-284 | changing only the lock and close flags keeps the calendar invariant |
| PeriodManagement.YearClosingClosesPeriods | Areas/Accounting/Services/PeriodManagementService.cs:264-268 | closing a year closes and locks every one of its periods and leaves every other period as it was |
| PeriodManagement.ClosedYearDatesClosed | Areas/Accounting/Services/PeriodManagementService.cs:245-284 | after a year is closed, the period status reports every date of each of its periods as closed |
| PeriodManagement.RelockedTable | Areas/Accounting/Services/PeriodManagementService.cs:204-206 | locking or unlocking a stored period changes only that period's flag |
| PeriodManagement.ClosedPeriodEffect | Areas/Accounting/Services/PeriodManagementService.cs:187-208 | after closing a period the general ledger refuses entries in it, yet the period status, which reads only IsClosed, reports nothing changed |
| PeriodManagement.ReopenUndoesClose | Areas/Accounting/Services/PeriodManagementService.cs:187-243 | reopening a period just closed restores the period table as it was |
| PeriodManagement.PeriodManagementService.constructor | Areas/Accounting/Services/PeriodManagementService.cs:33-41 | the service holds the given year and period tables |
| PeriodManagement.PeriodManagementService.CreateFiscalYear | Areas/Accounting/Services/PeriodManagementService.cs:53-73 | the outcome is YearCreation on the old years, and the year under its stored key is appended exactly on success |
| PeriodManagement.PeriodManagementService.UpdateFiscalYear | Areas/Accounting/Services/PeriodManagementService.cs:75-95 | the outcome is YearUpdate on the old years, and the stored year is replaced exactly on success |
| PeriodManagement.PeriodManagementService.FindClash | Areas/Accounting/Services/PeriodManagementService.cs:136-142 | the scan reports a clash exactly when another period of the year overlaps |
| PeriodManagement.PeriodManagementService.CreateFiscalPeriod | Areas/Accounting/Services/PeriodManagementService.cs:115-149 | the outcome is PeriodCreation, and the period under its stored key is appended exactly on success |
| PeriodManagement.PeriodManagementService.UpdateFiscalPeriod | Areas/Accounting/Services/PeriodManagementService.cs:151-185 | the outcome is PeriodUpdate, and the stored period is replaced exactly on success |
| PeriodManagement.PeriodManagementService.CloseFiscalPeriod | Areas/Accounting/Services/PeriodManagementService.cs:187-208 | the outcome is PeriodClosing's, and the locked period replaces the stored one exactly on success |
| PeriodManagement.PeriodManagementService.ReopenFiscalPeriod | Areas/Accounting/Services/PeriodManagementService.cs:210-243 | the outcome is PeriodReopening's, and the unlocked period replaces the stored one exactly on success |
| PeriodManagement.PeriodManagementService.CloseFiscalYear | Areas/Accounting/Services/PeriodManagementService.cs:245-284 | the outcome is YearClosing's; on success the year is closed and every one of its periods closed, nothing else changes |
| GeneralLedger.Validate | Areas/Accounting/Services/GeneralLedgerService.cs:294-308 | a missing period is a null dereference; otherwise valid exactly when the period is neither locked nor closed and the line totals differ by less than 0.0001 |
| GeneralLedger.ValidateIgnoresLineOrder | Areas/Accounting/Services/GeneralLedgerService.cs:294-308 | validation does not depend on the order of the lines |
| GeneralLedger.SwapAll | Areas/Accounting/Services/GeneralLedgerService.cs:304-305 | the swapped lines are as many as the original ones |
| GeneralLedger.SwapAllTotals | Areas/Accounting/Services/GeneralLedgerService.cs:304-305 | exchanging debit and credit on every line exchanges the two totals |
| GeneralLedger.ValidateSwapSides | Areas/Accounting/Services/GeneralLedgerService.cs:294-308 | exchanging debit and credit on every line keeps the validation result |
| GeneralLedger.YearMonth | Areas/Accounting/Services/GeneralLedgerService.cs:139-140 | the yyyyMM prefix is six ASCII digits |
| GeneralLedger.Numbers | Areas/Accounting/Services/GeneralLedgerService.cs:143-146 | the stored entry numbers, one per entry, in table order |
| GeneralLedger.OfMonth | Areas/Accounting/Services/GeneralLedgerService.cs:143-145 | every number kept starts with the month prefix |
| GeneralLedger.NumberForParses | Areas/Accounting/Services/GeneralLedgerService.cs:149-154 | for a 32-bit sequence, the generated number starts with the month prefix, is at least ten characters long, and its suffix from index 6 parses back to that sequence |
| GeneralLedger.NatDigitsMinWidth | Areas/Accounting/Services/GeneralLedgerService.cs:154 | D4 formatting writes at least four digits |
| GeneralLedger.NumberCollisionAsWritten | Areas/Accounting/Services/GeneralLedgerService.cs:143-154 | as written, with 2024019999 and 20240110000 stored, the next number is 20240110000 again, a duplicate |
| GeneralLedger.LastSequenceAsWritten | Areas/Accounting/Services/GeneralLedgerService.cs:143-152 | as written: a month with no stored number has no last sequence; a last sequence is a 32-bit value parsed from the suffix of a stored number of the month |
| GeneralLedger.NextNumberAsWritten | Areas/Accounting/Services/GeneralLedgerService.cs:136-155 | as written: the number starts with the month prefix |
| GeneralLedger.SuffixFollowsOrder | Areas/Accounting/Services/GeneralLedgerService.cs:146 | two numbers of one length that share a prefix and end in digits are in ordinal order only if their digit suffixes are in numeric order |
| GeneralLedger.LastSequenceOfFourDigits | Areas/Accounting/Services/GeneralLedgerService.cs:143-152 | as written, when every stored number of the month is the month and four digits, the last sequence is the value, below 10000, of the suffix of the ordinally greatest number of the month |
| GeneralLedger.NextSequenceAbove | Areas/Accounting/Services/GeneralLedgerService.cs:149-154 | the number for one more than a stored four-digit suffix is longer than ten characters or sorts ordinally after that stored number |
| GeneralLedger.NextNumberAsWrittenFresh | Areas/Accounting/Services/GeneralLedgerService.cs:136-155 | as written, while every stored number of the month is the month and four digits, the generator returns a number not stored yet |
| GeneralLedger.JoinedNumber | Areas/Accounting/Services/GeneralLedgerService.cs:154 | the month 202401 and suffix 10000 spell 20240110000 |
| GeneralLedger.AfterLastSequence | Areas/Accounting/Services/GeneralLedgerService.cs:148-154 | as written, the next number is the month prefix and one more than the sequence parsed from the ordinally greatest number |
| GeneralLedger.LastSequenceIs9999 | Areas/Accounting/Services/GeneralLedgerService.cs:143-152 | as written, the ordinally greatest of 2024019999 and 20240110000 is 2024019999, whose sequence is 9999 |
| GeneralLedger.BothOfMonth | Areas/Accounting/Services/GeneralLedgerService.cs:143-145 | both numbers of the counterexample belong to month 202401 |
| Sorting.StrLeAt | Areas/Accounting/Services/GeneralLedgerService.cs:146 | two strings that agree up to an index are ordered by their characters there |
| GeneralLedger.OrdinalMaximum | Areas/Accounting/Services/GeneralLedgerService.cs:146 | in ordinal order 2024019999 sorts after 20240110000 |
| GeneralLedger.ParseLastSequence | Areas/Accounting/Services/GeneralLedgerService.cs:149 | "9999" parses to 9999 |
| GeneralLedger.FormatNextSequence | Areas/Accounting/Services/GeneralLedgerService.cs:154 | 10000 formatted as D4 is "10000" |
| Sorting.KeyLeAt | Areas/Accounting/Services/GeneralLedgerService.cs:146 | keys that agree up to an index are ordered by their elements there |
| GeneralLedger.MaxSequence | Areas/Accounting/Services/GeneralLedgerService.cs:143-152 | the result is a 32-bit value no smaller than the sequence of any number of the month |
| GeneralLedger.NextNumber | Areas/Accounting/Services/GeneralLedgerService.cs:136-155 | corrected generator: the number starts with the month prefix |
| GeneralLedger.NextNumberShape | Areas/Accounting/Services/GeneralLedgerService.cs:136-155 | the corrected number is the month prefix and one more than the greatest sequence of the month, or 1 when there is none |
| GeneralLedger.NextNumberFresh | Areas/Accounting/Services/GeneralLedgerService.cs:136-155 | until the sequence would overflow, the corrected generator never returns a number already stored |
| GeneralLedger.NoFilterKeepsAll | Areas/Accounting/Services/GeneralLedgerService.cs:85-94 | with no bound and no status every entry is listed |
| GeneralLedger.OrderEntries | Areas/Accounting/Services/GeneralLedgerService.cs:96-99 | a permutation of the entries, newest date first and, within a date, newest creation time first |
| GeneralLedger.ListedEntries | Areas/Accounting/Services/GeneralLedgerService.cs:68-99 | a page holds only stored entries that pass the filter, newest first, and the total counts every matching entry |
| GeneralLedger.ListEntries | Areas/Accounting/Services/GeneralLedgerService.cs:68-99 | the total counts every entry that passes the filter, and a page holds at most pageSize entries |
| GeneralLedger.Created | Areas/Accounting/Services/GeneralLedgerService.cs:101-134 | creation succeeds exactly for a valid entry whose stored key (the generated one for Guid.Empty) is free; the saved entry is then a Draft under that key with balanced totals that are its line sums, created now |
| GeneralLedger.CreatedEntry | Areas/Accounting/Services/GeneralLedgerService.cs:101-134 | creation succeeds exactly for a valid entry whose stored key is free, and an entry left at Guid.Empty is never a duplicate; the saved entry is a Draft under that key whose totals are its balanced line sums, created now, with a number of the month; while every stored number of the month is the month and four digits, that number is not stored yet |
| GeneralLedger.Updated | Areas/Accounting/Services/GeneralLedgerService.cs:157-202 | an update succeeds exactly when the stored entry is Draft or Rejected and the new one validates; a missing entry is not found; the saved entry is the given one as a Draft with recomputed totals |
| GeneralLedger.Deleted | Areas/Accounting/Services/GeneralLedgerService.cs:204-216 | deletion is allowed exactly when the stored entry is Draft or Rejected; a missing entry is not found |
| GeneralLedger.DeletionRemoves | Areas/Accounting/Services/GeneralLedgerService.cs:204-236 | a permitted deletion removes exactly the entry, with its lines, and keeps every other entry |
| GeneralLedger.ApprovedEntry | Areas/Accounting/Services/GeneralLedgerService.cs:238-267 | approval succeeds exactly for a stored Draft or Pending entry whose period is open; it sets Approved, the approver and the time and nothing else; a shut period is refused |
| GeneralLedger.RejectedEntry | Areas/Accounting/Services/GeneralLedgerService.cs:269-292 | rejection succeeds exactly for a stored Draft or Pending entry, with no period check; it sets Rejected, the reason, the rejecting user and the time and nothing else |
| GeneralLedger.RejectedCanBeResubmitted | Areas/Accounting/Services/GeneralLedgerService.cs:157-292 | a rejected entry can be updated again and, in an open period, approved |
| GeneralLedger.GeneralLedgerService.constructor | Areas/Accounting/Services/GeneralLedgerService.cs:38-48 | the service holds the given entry and period tables |
| GeneralLedger.GeneralLedgerService.ValidateJournalEntry | Areas/Accounting/Services/GeneralLedgerService.cs:294-308 | the result is Validate on the period table |
| GeneralLedger.GeneralLedgerService.CreateJournalEntry | Areas/Accounting/Services/GeneralLedgerService.cs:101-134 | the result is Created on the old entries, with the generated key and the as-written number, and the saved entry is appended exactly on success |
| GeneralLedger.GeneralLedgerService.UpdateJournalEntry | Areas/Accounting/Services/GeneralLedgerService.cs:157-202 | the result is Updated, and the stored row is replaced exactly on success |
| GeneralLedger.GeneralLedgerService.DeleteJournalEntry | Areas/Accounting/Services/GeneralLedgerService.cs:204-236 | the result is Deleted, and the entry is removed exactly on success |
| GeneralLedger.GeneralLedgerService.ApproveJournalEntry | Areas/Accounting/Services/GeneralLedgerService.cs:238-267 | the result is ApprovedEntry, and the stored row is replaced exactly on success |
| GeneralLedger.GeneralLedgerService.RejectJournalEntry | Areas/Accounting/Services/GeneralLedgerService.cs:269-292 | the result is RejectedEntry, and the stored row is replaced exactly on success |
| JournalController.LineRoundTrip | Areas/Accounting/Controllers/JournalEntriesController.cs:166-177 | copying a line to the form and back, or a form line to an entry line and back, loses only the line id |
| JournalController.KeptLines | Areas/Accounting/Controllers/JournalEntriesController.cs:164 | the lines made from the form are no more than the form's, and each has an account and a positive debit or credit |
| JournalController.KeptLinesSnoc | Areas/Accounting/Controllers/JournalEntriesController.cs:164-178 | one more form line adds its entry line exactly when the filter keeps it |
| JournalController.KeptLinesExact | Areas/Accounting/Controllers/JournalEntriesController.cs:164-178 | every form line the filter keeps becomes an entry line, and every entry line comes from a kept form line |
| JournalController.KeptLinesTotals | Areas/Accounting/Controllers/JournalEntriesController.cs:115-120 | when the dropped lines carry no amounts, the kept lines have the form's debit and credit totals |
| JournalController.CopyLines | Areas/Accounting/Controllers/JournalEntriesController.cs:164-178 | the loop builds exactly the kept lines, in form order |
| JournalController.NewEntry | Areas/Accounting/Controllers/JournalEntriesController.cs:140-161 | the new entry has no id, reference or totals yet, and takes the form's number and status, the uploaded attachment and the copied lines |
| JournalController.SaveCalls | Areas/Accounting/Controllers/JournalEntriesController.cs:180-187 | the save is always made, and a posting call follows exactly when the status is Posted |
| JournalController.CreateResponse | Areas/Accounting/Controllers/JournalEntriesController.cs:108-194 | something is saved exactly when the model is valid, the form balances and the posting date's period is open; otherwise the form is shown again, with the unbalanced error when it does not balance; a save adds the built entry and shows the list |
| JournalController.Create | Areas/Accounting/Controllers/JournalEntriesController.cs:108-194 | the step-by-step action gives the same response as CreateResponse |
| JournalController.EditedKeeps | Areas/Accounting/Controllers/JournalEntriesController.cs:309-345 | Edit keeps the id, number, reference, stored totals, creation time and review fields, and its new lines are the kept form lines whatever the old lines were |
| JournalController.Edited | Areas/Accounting/Controllers/JournalEntriesController.cs:309-345 | the edited entry keeps the stored id, number, reference, totals, creation time and, without an upload, the attachment; its lines are those the filter keeps |
| JournalController.FormOf | Areas/Accounting/Controllers/JournalEntriesController.cs:212-248 | the Edit form shows one form line per entry line, in order |
| JournalController.EditUnchanged | Areas/Accounting/Controllers/JournalEntriesController.cs:212-345 | saving the Edit page unchanged gives back the entry with its posting date at midnight and its line ids cleared, when every line has an account and an amount |
| JournalController.ClearedIds | Areas/Accounting/Controllers/JournalEntriesController.cs:235-247 | the lines with only their ids cleared |
| JournalController.KeptAll | Areas/Accounting/Controllers/JournalEntriesController.cs:328-341 | when every line has an account and an amount, the filter keeps every line of the Edit form |
| JournalController.EditResponse | Areas/Accounting/Controllers/JournalEntriesController.cs:253-358 | a route id other than the form's, or a missing entry, is not found; a Posted entry is refused; the service is called exactly when the model is valid, the entry is stored and not Posted, the form balances and the period is open, and then with the update of the edited entry alone, no posting following |
| JournalController.EditEntry | Areas/Accounting/Controllers/JournalEntriesController.cs:309-342 | the field assignments and the line loop give the edited entry |
| JournalController.Edit | Areas/Accounting/Controllers/JournalEntriesController.cs:253-358 | the step-by-step action, testing for Posted on the entry as the update leaves it, gives the same response as EditResponse |
| JournalController.EditNeverPosts | Areas/Accounting/Controllers/JournalEntriesController.cs:309-351 | as written, the only call is the update; on the tracked entry a Posted, Pending or Approved form makes it refuse, and whenever it succeeds, tracked or detached, the entry comes back a Draft, so the posting is never reached |
| JournalController.EditIntended | Areas/Accounting/Controllers/JournalEntriesController.cs:253-358 | the intended edit: the same guards, then the edited entry saved under its stored status and a posting call exactly when the form says Posted |
| JournalController.EditIntendedPosts | Areas/Accounting/Controllers/JournalEntriesController.cs:345-351 | with the intended edit, a stored Draft or Rejected entry whose edit validates is accepted by the update, tracked or detached, and is posted exactly when the form says Posted |
| JournalController.EditView | Areas/Accounting/Controllers/JournalEntriesController.cs:197-250 | the page is not found exactly for a missing entry and a refusal exactly for a Posted one; nothing is saved |
| JournalController.DeleteView | Areas/Accounting/Controllers/JournalEntriesController.cs:414-431 | the page is not found exactly for a missing entry and a refusal exactly for a Posted one; otherwise it shows the stored entry |
| JournalController.DeleteResponse | Areas/Accounting/Controllers/JournalEntriesController.cs:433-459 | the entry is deleted exactly when it is stored and not Posted |
| JournalController.SubmitResponse | Areas/Accounting/Controllers/JournalEntriesController.cs:461-485 | the update is called exactly for a stored Draft entry, with the entry marked Pending |
| JournalController.ApproveResponse | Areas/Accounting/Controllers/JournalEntriesController.cs:487-510 | the approval is called exactly for a stored Pending entry |
| JournalController.RejectResponse | Areas/Accounting/Controllers/JournalEntriesController.cs:512-542 | the rejection is called exactly for a stored Pending entry with a reason that is not blank; a blank reason is refused |
| JournalController.PostResponse | Areas/Accounting/Controllers/JournalEntriesController.cs:544-576 | the posting is called exactly for a stored Approved entry whose posting date is in an open period; a closed period is refused |
| JournalController.PostedIsFinal | Areas/Accounting/Controllers/JournalEntriesController.cs:271-275 | no action calls the service about a Posted entry |
| JournalController.ApproveCallStatusAccepted | Areas/Accounting/Controllers/JournalEntriesController.cs:487-510 | whenever the controller calls the approval, the service's status check passes and only the entry's period decides |
| JournalController.RejectCallAccepted | Areas/Accounting/Controllers/JournalEntriesController.cs:512-542 | whenever the controller calls the rejection, the service rejects the entry |
| JournalController.DeleteGuardLooser | Areas/Accounting/Controllers/JournalEntriesController.cs:433-459 | a Pending or Approved entry passes the controller's delete guard and is refused by the service |
| JournalController.SubmitNeverPends | Areas/Accounting/Controllers/JournalEntriesController.cs:473-481 | as written, the update refuses the entry already marked Pending, and on a detached copy it would save a Draft |
| JournalController.Submitted | Areas/Accounting/Controllers/JournalEntriesController.cs:461-485 | the intended submission: a stored Draft entry becomes Pending and nothing else changes; other entries are refused |
| JournalController.SubmittedAwaitsReview | Areas/Accounting/Controllers/JournalEntriesController.cs:487-542 | after the intended submission the controller's Approve and Reject accept the entry, and the service approves it exactly when its period is open |
| FinancialReporting.OnlyApprovedEntries | Areas/Accounting/Services/FinancialReportingService.cs:59-68 | a line is read exactly when it belongs to an approved entry posted within the dates and matches the cost center, and dropping the unapproved entries first changes nothing |
| FinancialReporting.CenterOf | Areas/Accounting/Services/FinancialReportingService.cs:53-57 | the report names a stored cost center with the given id, and one whenever such a center is stored |
| FinancialReporting.ByCode | Areas/Accounting/Services/FinancialReportingService.cs:83 | the accounts ordered by code are a permutation of the chart, sorted by code |
| FinancialReporting.TrialItemsStep | Areas/Accounting/Services/FinancialReportingService.cs:83-112 | one more account extends the items by exactly what the loop adds for it |
| FinancialReporting.TrialItems | Areas/Accounting/Services/FinancialReportingService.cs:83-112 | at most one item per account listed |
| FinancialReporting.TrialBalanceOf | Areas/Accounting/Services/FinancialReportingService.cs:47-121 | the report carries the requested date, level and stored cost center, and at most one item per chart account |
| FinancialReporting.GenerateTrialBalance | Areas/Accounting/Services/FinancialReportingService.cs:47-121 | the report is TrialBalanceOf: the date, the cost center, the level and the items of the filtered chart by code |
| FinancialReporting.CollectTrialItems | Areas/Accounting/Services/FinancialReportingService.cs:81-112 | the loop collects the items TrialItems states for the accounts in order |
| FinancialReporting.ItemsForListed | Areas/Accounting/Services/FinancialReportingService.cs:83-112 | within the level filter, an account adds its item exactly when it is listed |
| FinancialReporting.ItemBalances | Areas/Accounting/Services/FinancialReportingService.cs:85-110 | every item splits its account's net into a debit and a credit balance, both non-negative, at most one non-zero, whose difference is the net |
| FinancialReporting.ItemsForIsItemOf | Areas/Accounting/Services/FinancialReportingService.cs:85-110 | an account adds nothing or its own item, and a zero item is that of an account whose net is 0 |
| FinancialReporting.TrialItemsMembers | Areas/Accounting/Services/FinancialReportingService.cs:83-112 | the items are exactly those of the listed accounts |
| FinancialReporting.TrialItemsCodes | Areas/Accounting/Services/FinancialReportingService.cs:89-107 | each item carries the code of one of the accounts |
| FinancialReporting.TrialItemsSorted | Areas/Accounting/Services/FinancialReportingService.cs:83 | over accounts sorted by code, the items are sorted by code |
| FinancialReporting.ChartListing | Areas/Accounting/Services/FinancialReportingService.cs:50-112 | the items over the chart filtered by level are the items of its listed accounts |
| FinancialReporting.TrialBalanceListing | Areas/Accounting/Services/FinancialReportingService.cs:47-121 | at level 0 the accounts with lines are listed, whatever their level; above 0 every account up to the level, with zero balances when there are no lines; below 0 the accounts up to the level that have lines; items are in code order |
| FinancialReporting.TrialBalanceAmounts | Areas/Accounting/Services/FinancialReportingService.cs:85-110 | every balance is non-negative and splits its account's net, and TotalDebit minus TotalCredit is the sum of the nets |
| FinancialReporting.BalanceIsNet | Areas/Accounting/Services/FinancialReportingService.cs:157-161 | the summed line nets of an account are its summed debits minus its summed credits |
| FinancialReporting.Section | Areas/Accounting/Services/FinancialReportingService.cs:169-186 | one item per account, in order, each with the account's balance, negated in a credit-normal section |
| FinancialReporting.CollectSection | Areas/Accounting/Services/FinancialReportingService.cs:169-186 | the foreach builds exactly the section of the accounts in order |
| FinancialReporting.GenerateBalanceSheet | Areas/Accounting/Services/FinancialReportingService.cs:123-237 | the report is BalanceSheetOf: asset, liability and equity sections over the lines posted by the date, liabilities and equity negated |
| FinancialReporting.BalanceSheetOf | Areas/Accounting/Services/FinancialReportingService.cs:123-237 | the report carries the date and cost center, and one asset, liability and equity item per account of that type |
| FinancialReporting.GenerateIncomeStatement | Areas/Accounting/Services/FinancialReportingService.cs:239-331 | the report is IncomeStatementOf: revenue, negated, and expense sections over the lines posted within the dates |
| FinancialReporting.IncomeStatementOf | Areas/Accounting/Services/FinancialReportingService.cs:239-331 | the report carries the period, and a named cost center is a stored one with the requested id |
| FinancialReporting.SectionMembers | Areas/Accounting/Services/FinancialReportingService.cs:169-186 | a section holds exactly the items of its accounts, and is in code order when they are |
| FinancialReporting.SectionListing | Areas/Accounting/Services/FinancialReportingService.cs:136-186 | a section lists every account of its type as often as the chart holds it and nothing else, in code order |
| FinancialReporting.SectionItemWithoutLines | Areas/Accounting/Services/FinancialReportingService.cs:171-176 | an account without lines shows 0 |
| FinancialReporting.SectionSum | Areas/Accounting/Services/FinancialReportingService.cs:957-959 | a section's total is the sum of its accounts' balances, negated in a credit-normal section |
| FinancialReporting.SectionTotal | Areas/Accounting/Services/FinancialReportingService.cs:957-959 | a section's total is the net of the accounts of its type, negated in a credit-normal section |
| FinancialReporting.LinesOfKeep | Areas/Accounting/Services/FinancialReportingService.cs:59-68 | two entry selections that agree on every entry read the same lines |
| FinancialReporting.SumOverIds | Areas/Accounting/Services/FinancialReportingService.cs:157-161 | summing the balances over the accounts is summing the line nets over their ids |
| FinancialReporting.LedgerCancels | Areas/Accounting/Services/FinancialReportingService.cs:157-161 | over a chart that holds every line's account once, balanced lines give balances that add up to 0 |
| FinancialReporting.SumByType | Areas/Accounting/Services/FinancialReportingService.cs:136-142 | every account has one of the five types, so the sum over the chart is the sum of the sums per type |
| FinancialReporting.AccountingEquation | Areas/Accounting/Services/FinancialReportingService.cs:123-331 | with every entry balanced, no cost center and a chart holding every posted line's account once, total assets equal total liabilities and equity plus the net income up to the same date |
| FinancialReporting.TrialItemsNet | Areas/Accounting/Services/FinancialReportingService.cs:85-110 | the items' debit-minus-credit differences add up to the accounts' nets |
| FinancialReporting.TrialBalanceBalances | Areas/Accounting/Services/FinancialReportingService.cs:47-121 | with no level, no cost center and balanced entries over a chart holding every posted line's account once, TotalDebit equals TotalCredit |
| FinancialReporting.GenerateCashFlowStatement | Areas/Accounting/Services/FinancialReportingService.cs:333-441 | the report is CashFlowOf: the period's net income, then the fixed amounts, in order |
| FinancialReporting.CashFlowOf | Areas/Accounting/Services/FinancialReportingService.cs:333-441 | the first operating item is "Net Income" with the period income statement's net income, and the net cash flow is that figure plus the hard-coded example amounts, which add up to 1000 |
| FinancialReporting.CashFlowFigures | Areas/Accounting/Services/FinancialReportingService.cs:333-441 | the only ledger figure is the net income, the first of four operating items; operating is that income less 6000, investing -5000, financing 12000, and the net cash flow is the income plus 1000, the sum of all items |
| FinancialStatements.IsInRange | Areas/Accounting/Services/FinancialStatementService.cs:223-235 | true exactly when some well-formed range holds the code; a code that does not parse as a 32-bit integer is in no range |
| FinancialStatements.MalformedRangeSkipped | Areas/Accounting/Services/FinancialStatementService.cs:227-228 | a malformed range in the list changes nothing |
| FinancialStatements.RangeBounds | Areas/Accounting/Services/FinancialStatementService.cs:227-228 | a range is read only when it splits into two parts that both parse as 32-bit integers |
| FinancialStatements.SplitRange | Areas/Accounting/Services/FinancialStatementService.cs:227 | two dash-free bounds joined with a dash split back into those two parts |
| FinancialStatements.DigitsHaveNoDash | Areas/Accounting/Services/FinancialStatementService.cs:228 | a non-negative number's decimal text has no dash |
| FinancialStatements.RangeBoundsRoundTrip | Areas/Accounting/Services/FinancialStatementService.cs:227-228 | the text "lo-hi" of two non-negative 32-bit bounds reads back as exactly those bounds |
| FinancialStatements.NegativeLowerBoundMalformed | Areas/Accounting/Services/FinancialStatementService.cs:227-228 | a range with a negative lower bound splits into three parts and is never read |
| FinancialStatements.Hits | Areas/Accounting/Services/FinancialStatementService.cs:58-68 | whether each range list of the chain holds the code, list by list |
| FinancialStatements.FirstTrue | Areas/Accounting/Services/FinancialStatementService.cs:58-68 | the index of the first true entry, with every entry before it false, or none exactly when all are false |
| FinancialStatements.FirstMatch | Areas/Accounting/Services/FinancialStatementService.cs:58-68 | the first list of the chain that holds the code, with no earlier list holding it, or none exactly when no list does |
| FinancialStatements.FindBucket | Areas/Accounting/Services/FinancialStatementService.cs:58-68 | the if / else-if chain picks the list FirstMatch names |
| FinancialStatements.FirstMatchAt | Areas/Accounting/Services/FinancialStatementService.cs:58-68 | the first list that holds the code is the one FirstMatch names |
| FinancialStatements.FirstTrueAt | Areas/Accounting/Services/FinancialStatementService.cs:58-68 | the first true entry is the one FirstTrue names |
| FinancialStatements.BucketAppend | Areas/Accounting/Services/FinancialStatementService.cs:55-70 | the balances sent to a list from two runs of rows are those of the first run followed by those of the second |
| FinancialStatements.BucketStep | Areas/Accounting/Services/FinancialStatementService.cs:55-70 | one more row adds its balance to its own list only |
| FinancialStatements.Distribute | Areas/Accounting/Services/FinancialStatementService.cs:55-70 | the foreach fills one list per range list, each with the balances of the rows whose first matching list it is, in trial-balance order |
| FinancialStatements.BucketMembers | Areas/Accounting/Services/FinancialStatementService.cs:55-70 | a list holds the balance of every row whose first matching list it is, and nothing else |
| FinancialStatements.BucketSum | Areas/Accounting/Services/FinancialStatementService.cs:73-82 | a list's total is the sum of the nets of its rows |
| FinancialStatements.BucketsUnion | Areas/Accounting/Services/FinancialStatementService.cs:76-83 | the nets of the rows of lists lo to hi are those of lo to mid plus those of mid to hi |
| FinancialStatements.BucketsOne | Areas/Accounting/Services/FinancialStatementService.cs:82 | the rows of the lists from j to j + 1 are the rows of list j |
| FinancialStatements.BucketsTwo | Areas/Accounting/Services/FinancialStatementService.cs:80 | the net of the rows of two consecutive lists is the sum of their nets |
| FinancialStatements.BucketsThree | Areas/Accounting/Services/FinancialStatementService.cs:76 | the net of the rows of three consecutive lists is the sum of their nets |
| FinancialStatements.BuildBalanceSheet | Areas/Accounting/Services/FinancialStatementService.cs:48-85 | the foreach and the totals give BalanceSheetOf the rows and the mapping |
| FinancialStatements.SheetOf | Areas/Accounting/Services/FinancialStatementService.cs:48-85 | each asset and liability total is the sum of its listed balances, the equity total is that of the equity list while the section total stays 0, and liabilities and equity add up |
| FinancialStatements.BalanceSheetTotals | Areas/Accounting/Services/FinancialStatementService.cs:73-83 | each balance-sheet total is the net of the rows its lists took: assets lists 0 to 2, liabilities 3 and 4, equity 5; the equity section's own total stays 0 |
| FinancialStatements.SheetTotals | Areas/Accounting/Services/FinancialStatementService.cs:73-83 | the same totals for any placement of the rows in the six lists |
| FinancialStatements.SheetAssets | Areas/Accounting/Services/FinancialStatementService.cs:73-76 | the asset totals are the nets of the rows in the three asset lists |
| FinancialStatements.SheetLiabilities | Areas/Accounting/Services/FinancialStatementService.cs:78-80 | the liability totals are the nets of the rows in the two liability lists |
| FinancialStatements.SheetEquity | Areas/Accounting/Services/FinancialStatementService.cs:82-83 | the equity total is the net of the rows in the equity list, and totalLiabilitiesAndEquity adds it to the liabilities |
| FinancialStatements.BuildIncomeStatement | Areas/Accounting/Services/FinancialStatementService.cs:88-130 | the foreach and the totals give IncomeStatementOf the rows and the mapping |
| FinancialStatements.IncomeStatementOf | Areas/Accounting/Services/FinancialStatementService.cs:99-127 | revenue is the sum of the revenue balances, expenses the sum of the four expense totals, and net income their difference |
| FinancialStatements.IncomeStatementTotals | Areas/Accounting/Services/FinancialStatementService.cs:121-127 | revenue is the net of the rows of list 0, the expenses the net of lists 1 to 4, each expense total that of its list, and the net income their difference; the revenue section's own total stays 0 |
| FinancialStatements.InRangesRowAt | Areas/Accounting/Services/FinancialStatementService.cs:170 | the row selector holds exactly when the row's code is in the ranges |
| FinancialStatements.RangeItemsAppend | Areas/Accounting/Services/FinancialStatementService.cs:168-172 | the items of two runs of rows are those of the first run followed by those of the second |
| FinancialStatements.RangeItemsStep | Areas/Accounting/Services/FinancialStatementService.cs:168-172 | one more row adds its item exactly when it is selected |
| FinancialStatements.AddRangeItem | Areas/Accounting/Services/FinancialStatementService.cs:170-171 | the row's item is added exactly when its code is in the ranges |
| FinancialStatements.AddRangeItemAt | Areas/Accounting/Services/FinancialStatementService.cs:168-172 | one pass extends the items of the rows seen so far by the next row's |
| FinancialStatements.CollectRangeItems | Areas/Accounting/Services/FinancialStatementService.cs:166-208 | the adjustments, investing or financing loop collects exactly the items of the rows in the ranges, in order |
| FinancialStatements.RangeItemsSum | Areas/Accounting/Services/FinancialStatementService.cs:175 | the items' amounts add up to the net of the selected rows, or to its negation for investing |
| FinancialStatements.WorkingCapitalItems | Areas/Accounting/Services/FinancialStatementService.cs:179-185 | one item per working-capital range, in order |
| FinancialStatements.CollectWorkingCapital | Areas/Accounting/Services/FinancialStatementService.cs:178-186 | the foreach over the working-capital ranges builds exactly those items |
| FinancialStatements.BuildCashFlow | Areas/Accounting/Services/FinancialStatementService.cs:155-220 | the section loops and totals give CashFlowOf the two trial balances and the net income |
| FinancialStatements.CashFlowOf | Areas/Accounting/Services/FinancialStatementService.cs:155-220 | operating starts from the given net income, investing and financing are the sums of their items, the increase is the three nets' sum and cash at end is cash at beginning plus it |
| FinancialStatements.CashFlowTotals | Areas/Accounting/Services/FinancialStatementService.cs:162-218 | adjustments and financing bring in the net of their rows, investing its negation, each working-capital range the negated change of its net; the increase is the sum of the three activities and the closing cash the opening cash plus the increase; the investing and financing section totals stay 0 |
| FinancialStatements.RangeItemsMembers | Areas/Accounting/Services/FinancialStatementService.cs:168-208 | an item of a range-selected list is the name and net, or negated net, of a selected row, and every selected row has one |
| FinancialStatements.BalanceSheetFor | Areas/Accounting/Services/FinancialStatementService.cs:37-41 | the balance sheet fails exactly for an unknown period, with an argument error |
| FinancialStatements.IncomeStatementFor | Areas/Accounting/Services/FinancialStatementService.cs:88-92 | the income statement fails exactly for an unknown period, with an argument error |
| FinancialStatements.CashFlowFor | Areas/Accounting/Services/FinancialStatementService.cs:132-147 | an unknown period is an argument error; for a known one the cash flow fails, out of range, exactly when the day before its start or the year before that cannot be formed |
| FinancialStatements.CashFlowNetIncome | Areas/Accounting/Services/FinancialStatementService.cs:152-157 | whenever the cash flow succeeds, the income statement of the same period also does and its net income opens the operating activities |
| FinancialStatements.CashFlowForOk | Areas/Accounting/Services/FinancialStatementService.cs:132-150 | a known period whose dates shift has the cash flow of its own trial balance and of the year before its start |
| FinancialStatements.PeriodRows | Areas/Accounting/Services/FinancialStatementService.cs:139-142 | the period's trial balance rows come sorted by account code |
| FinancialStatements.PeriodCashFlow | Areas/Accounting/Services/FinancialStatementService.cs:132-220 | the cash flow of a known period starts from that period's income-statement net income, and cash at end is cash at beginning plus the increase |
| FinancialStatements.FinancialStatementService.constructor | Areas/Accounting/Services/FinancialStatementService.cs:27-35 | the service holds the given periods, journal, chart and mapping |
| FinancialStatements.FinancialStatementService.GetBalanceSheet | Areas/Accounting/Services/FinancialStatementService.cs:37-86 | the result is BalanceSheetFor the service's tables |
| FinancialStatements.FinancialStatementService.GetIncomeStatement | Areas/Accounting/Services/FinancialStatementService.cs:88-130 | the result is IncomeStatementFor the service's tables |
| FinancialStatements.FinancialStatementService.GetCashFlow | Areas/Accounting/Services/FinancialStatementService.cs:132-221 | the result is CashFlowFor the service's tables |
| FinancialStatements.FinancialStatementService.ComposeCashFlow | Areas/Accounting/Services/FinancialStatementService.cs:152-220 | with both trial balances read, the cash flow built is PeriodCashFlow of the period |
| ErrorTaxonomy.RunLength | Scripts/github_actions_monitor.py:33 | the longest run of the token's characters at the start of the text: every character in it belongs, and the next one does not |
| ErrorTaxonomy.WellFormedTail | Scripts/github_actions_monitor.py:33-63 | the rest of a well-formed pattern is well formed |
| ErrorTaxonomy.MatchAtIsRegexMatch | Scripts/github_actions_monitor.py:33-63 | on the well-formed patterns the greedy matcher finds exactly the regex matches, with the same captures |
| ErrorTaxonomy.MatchAt | Scripts/github_actions_monitor.py:33-63 | a greedy match at the start of the text; every run capture it reports is non-empty, as the `+` runs demand |
| ErrorTaxonomy.SearchFrom | Scripts/github_actions_monitor.py:201 | a found match starts at or after the given index and matches there with the captures reported |
| ErrorTaxonomy.SearchFromLeftmost | Scripts/github_actions_monitor.py:201 | the match found is the leftmost, and when none is found there is none at any later index |
| ErrorTaxonomy.Search | Scripts/github_actions_monitor.py:201 | `re.search`: no result exactly when the pattern matches at no index, and otherwise the captures of a match at some index with none earlier |
| ErrorTaxonomy.RulesWellFormed | Scripts/github_actions_monitor.py:31-64 | every pattern of the table is well formed |
| ErrorTaxonomy.RuleWellFormed | Scripts/github_actions_monitor.py:31-64 | any one pattern of the table is well formed |
| ErrorTaxonomy.TailsWellFormed | Scripts/github_actions_monitor.py:33 | the shared tails of the definition and conversion patterns are well formed |
| ErrorTaxonomy.RunLitRunLit | Scripts/github_actions_monitor.py:48 | a run, a literal that ends it, a run and a literal that ends that form a well-formed pattern |
| ErrorTaxonomy.LitThenWellFormed | Scripts/github_actions_monitor.py:53 | a literal in front of a well-formed pattern keeps it well formed |
| ErrorTaxonomy.FirstTrue | Scripts/github_actions_monitor.py:200-206 | the first true entry at or after the start, with none before it, or none exactly when all are false |
| ErrorTaxonomy.Firing | Scripts/github_actions_monitor.py:200-201 | one entry per rule, true exactly when the rule fires on the message or on the prefixed message |
| ErrorTaxonomy.ClassifyWith | Scripts/github_actions_monitor.py:199-206 | the kind of the first rule that fires, or Unknown when none fires |
| ErrorTaxonomy.Classify | Scripts/github_actions_monitor.py:199-206 | the kind is Unknown exactly when no rule of the table fires on the message or on the prefixed message |
| ErrorTaxonomy.DropLiteralPrefix | Scripts/github_actions_monitor.py:53 | a match of a pattern with a longer leading literal contains a match of the shorter literal's pattern |
| ErrorTaxonomy.SearchDropsPrefix | Scripts/github_actions_monitor.py:201 | wherever the longer pattern is found, the shorter one is found too |
| ErrorTaxonomy.FiresDropsPrefix | Scripts/github_actions_monitor.py:200-201 | a rule whose pattern adds a literal prefix to another's fires only where the other does |
| ErrorTaxonomy.ShadowedKind | Scripts/github_actions_monitor.py:199-206 | such a later rule's kind is never the classification |
| ErrorTaxonomy.Cs1061Shadowed | Scripts/github_actions_monitor.py:53-56 | no message is classified missing_definition: the earlier missing_property rule always fires first |
| ErrorTaxonomy.Cs0117Shadowed | Scripts/github_actions_monitor.py:63-66 | no message is classified missing_member |
| ErrorTaxonomy.Cs0266Shadowed | Scripts/github_actions_monitor.py:58-61 | no message is classified implicit_conversion: the earlier type_conversion rule always fires first |
| ErrorTaxonomy.RunLengthOf | Scripts/github_actions_monitor.py:33 | a word followed by a character outside the run has the word's length as its run |
| ErrorTaxonomy.MatchLiteral | Scripts/github_actions_monitor.py:33 | a leading literal consumes exactly its own text |
| ErrorTaxonomy.MatchWord | Scripts/github_actions_monitor.py:33 | a word run captures exactly the word when a non-word character follows |
| ErrorTaxonomy.DefinitionTailShape | Scripts/github_actions_monitor.py:33 | the tail of the missing-definition pattern matches and captures the member name |
| ErrorTaxonomy.DefinitionShape | Scripts/github_actions_monitor.py:33 | the missing-definition pattern matches the message with the class and the member as captures |
| ErrorTaxonomy.DefinitionMessageIsMissingProperty | Scripts/github_actions_monitor.py:33-36 | a message beginning with the missing-definition phrase is missing_property whatever its code |
| ErrorTaxonomy.TestLineIsMissingProperty | Scripts/test_monitor.py:30-38 | the CS1061 line of the extraction test is classified missing_property |
| LogParser.PathRun | Scripts/github_actions_monitor.py:180 | the longest run of path characters at the start: every character in it is one, and the next is not |
| LogParser.DigitRun | Scripts/github_actions_monitor.py:180 | the longest run of ASCII digits at the start: every character in it is a digit, and the next is not |
| LogParser.LineEnd | Scripts/github_actions_monitor.py:180 | the first line break of the text, or its end, with no break before it |
| LogParser.BreakLength | Scripts/github_actions_monitor.py:180 | the break taken is empty exactly at the end of the text, and stays within it |
| LogParser.CodeAndMessage | Scripts/github_actions_monitor.py:215 | a match of the general pattern starts with "error ", a word code and ": ", and takes at least those and the message |
| LogParser.CodeAndMessageSound | Scripts/github_actions_monitor.py:215 | a match reads back as "error ", the code, ": " and the message, followed by a break, with no break inside the message |
| LogParser.MessageBeforeBreak | Scripts/github_actions_monitor.py:215 | the lazy message group holds no line break |
| LogParser.LineEndOf | Scripts/github_actions_monitor.py:215 | a one-line message followed by a break ends at that break |
| LogParser.CodeAndMessageComplete | Scripts/github_actions_monitor.py:215 | every text of the form error, word code, colon, one-line message and break is matched with exactly that code and message |
| LogParser.CodeThenRest | Scripts/github_actions_monitor.py:215 | after "error ", a word code and ": ", the message runs to the first break |
| LogParser.CodeAndMessageUnfold | Scripts/github_actions_monitor.py:215 | the match is the code run and the message up to its line end |
| LogParser.LineColumn | Scripts/github_actions_monitor.py:180 | the optional position group takes "(", the line digits, ",", the column digits and ")" |
| LogParser.PathEnd | Scripts/github_actions_monitor.py:180 | the path group is a whole source path starting with a slash and ending in ".cs", followed by a character that cannot extend it |
| LogParser.Position | Scripts/github_actions_monitor.py:180 | line and column groups are both present or both empty, and are digits |
| LogParser.AfterPath | Scripts/github_actions_monitor.py:180 | after the path, a located match carries that path, a word code, and line and column groups present together |
| LogParser.LocatedAt | Scripts/github_actions_monitor.py:180 | a located match starts at the text's start, is non-empty and is well shaped |
| LogParser.FindAllKeeps | Scripts/github_actions_monitor.py:180 | whatever every match of the matcher satisfies, every match the scan keeps satisfies |
| LogParser.MatchersAnchored | Scripts/github_actions_monitor.py:180-215 | both matchers report non-empty matches no longer than the text |
| LogParser.LocatedMatches | Scripts/github_actions_monitor.py:180 | every match of the located pattern is well shaped |
| LogParser.GeneralMatches | Scripts/github_actions_monitor.py:215 | every match of the general pattern has a word code |
| LogParser.FindAll | Scripts/github_actions_monitor.py:180 | `re.findall` over the rest of the log: non-overlapping matches, no more of them than characters remain |
| LogParser.LineNumber | Scripts/github_actions_monitor.py:187-188 | a digit group gives a number exactly when it is non-empty and all digits, and then its decimal value |
| LogParser.AppendEach | Scripts/github_actions_monitor.py:182-210 | the loop appends one record per match, in order |
| LogParser.ExtractBuildErrors | Scripts/github_actions_monitor.py:177-232 | the records of the located matches, or, only when there are none, those of the general matches |
| LogParser.ExtractSpec | Scripts/github_actions_monitor.py:177-232 | at most one record per character of the log, and no record exactly when neither pattern matches anywhere |
| LogParser.FileOnlyFromLocatedMatches | Scripts/github_actions_monitor.py:177-232 | a record has a file exactly when the located pattern matched somewhere; line and column are present together, and never without a file |
| LogParser.RecordsAreTrimmed | Scripts/github_actions_monitor.py:190-191 | every record's code is a word and its message has no surrounding white space |
| LogParser.PathRunOf | Scripts/github_actions_monitor.py:180 | a run of path characters followed by a non-path character is taken whole |
| LogParser.DigitRunOf | Scripts/github_actions_monitor.py:180 | a digit run followed by a non-digit is taken whole |
| LogParser.LineColumnOf | Scripts/github_actions_monitor.py:180 | a bracketed line and column are read back as the two digit groups |
| LogParser.GroupAt | Scripts/github_actions_monitor.py:180 | a digit group inside the text ends where the digits end |
| LogParser.LineColumnAt | Scripts/github_actions_monitor.py:180 | text shaped as bracket, digits, comma, digits and bracket is read as that position |
| LogParser.PathThenRest | Scripts/github_actions_monitor.py:180 | a source path followed by a non-path character is taken as the path group |
| LogParser.AfterPathWithoutPosition | Scripts/github_actions_monitor.py:180 | with no position group the match has empty line and column and the tail after ": " |
| LogParser.AfterPathUnfold | Scripts/github_actions_monitor.py:180 | the located match after a path carries the tail read after the position and ": " |
| LogParser.LocatedAtPath | Scripts/github_actions_monitor.py:180 | text beginning with a source path is matched by reading what follows the path |
| AutoFix.LastCs | Scripts/github_actions_monitor.py:248 | the last end of ".cs" at or before the bound, with none later, or none at all |
| AutoFix.PathMatchAt | Scripts/github_actions_monitor.py:248 | a path match at the start is a source path |
| AutoFix.PathIn | Scripts/github_actions_monitor.py:248 | the path searched for in a message is a source path |
| AutoFix.TargetFile | Scripts/github_actions_monitor.py:246-256 | the file to fix exists in the tree; a record that names a file keeps it, unchanged, exactly when it exists, and the runner prefix is rewritten only for a path taken from the message |
| AutoFix.MatchCaptures | Scripts/github_actions_monitor.py:261 | a match yields one capture per run token, each fitting its token |
| AutoFix.SearchCaptures | Scripts/github_actions_monitor.py:261 | a search yields one capture per run token, each fitting its token |
| AutoFix.TwoCaptures | Scripts/github_actions_monitor.py:261-263 | the two captures, from the message or else from the prefixed message, each fitting its token |
| AutoFix.DefinitionNames | Scripts/github_actions_monitor.py:259-267 | the class and property are read only for a missing-definition kind, and both are words |
| AutoFix.ConversionTypes | Scripts/github_actions_monitor.py:366-374 | the two types are read only for a conversion kind, and neither holds a quote |
| AutoFix.SpaceRun | Scripts/github_actions_monitor.py:277 | the longest run of white space at the start |
| AutoFix.ClassStart | Scripts/github_actions_monitor.py:277-281 | the first position at or after the start where "public", white space, "class", white space and the class name begin, with none earlier, or none at all |
| AutoFix.FirstClose | Scripts/github_actions_monitor.py:284-296 | the first position where the brace count from the class start returns to zero on a closing brace, or none |
| AutoFix.FindClassEnd | Scripts/github_actions_monitor.py:284-299 | the loop finds exactly that closing brace |
| AutoFix.InferType | Scripts/github_actions_monitor.py:301-314 | a collection type is inferred only for names "Available" + item + "s", with that item |
| AutoFix.CollectionNameParts | Scripts/github_actions_monitor.py:311-313 | a collection name is "Available", its item and "s" |
| AutoFix.InferTypePriority | Scripts/github_actions_monitor.py:301-314 | the first test that holds decides, in the order bool, int, DateTime, decimal, collection, and string when none holds |
| AutoFix.IsActiveCountIsBool | Scripts/github_actions_monitor.py:302-305 | a name such as IsActiveCount is given bool, not int, because the bool test comes first |
| AutoFix.LowerRun | Scripts/github_actions_monitor.py:324 | the longest run of characters that are not capitals at the start |
| AutoFix.Chunks | Scripts/github_actions_monitor.py:324 | every word found begins with a capital and holds no other capital |
| AutoFix.ConcatCons | Scripts/github_actions_monitor.py:324 | joining a word in front of a list puts it first |
| AutoFix.ChunksAtLower | Scripts/github_actions_monitor.py:324 | a leading non-capital is skipped |
| AutoFix.ChunksAtCapital | Scripts/github_actions_monitor.py:324 | a leading capital starts a word that runs to the next capital |
| AutoFix.ChunkAtCapital | Scripts/github_actions_monitor.py:324 | that word is the first one found |
| AutoFix.ChunksCover | Scripts/github_actions_monitor.py:324 | the words found, joined, are the name after its leading non-capitals |
| AutoFix.CoverAtLower | Scripts/github_actions_monitor.py:324 | the cover holds across a leading non-capital |
| AutoFix.CoverAtCapital | Scripts/github_actions_monitor.py:324 | the cover holds across a leading word |
| AutoFix.UsingAt | Scripts/github_actions_monitor.py:318 | a using directive at the start is at least "using x;" long and ends with a semicolon |
| AutoFix.FirstUsingEnd | Scripts/github_actions_monitor.py:318 | the end of the first using directive lies after the start and follows a semicolon |
| AutoFix.InsertMoves | Scripts/github_actions_monitor.py:319 | an insertion moves every character at or after it by the inserted length |
| AutoFix.AddUsing | Scripts/github_actions_monitor.py:316-319 | the directive is inserted after the first using exactly when it is absent and a using exists; otherwise the text is unchanged |
| AutoFix.UsingStep | Scripts/github_actions_monitor.py:315-331 | adding a directive keeps the tracked brace character and never moves it earlier |
| AutoFix.WithUsings | Scripts/github_actions_monitor.py:315-331 | after the using insertions the tracked position still holds the class's closing brace |
| AutoFix.InsertBefore | Scripts/github_actions_monitor.py:333 | inserting before a position keeps that character just after the insertion and the inserted text in the result |
| AutoFix.PropertyCode | Scripts/github_actions_monitor.py:323-326 | the generated code holds the property declaration right after the Display attribute line |
| AutoFix.PropertyBeforeBrace | Scripts/github_actions_monitor.py:333 | the corrected splice puts the property code right before the class's closing brace, where it is declared |
| AutoFix.WithProperty | Scripts/github_actions_monitor.py:300-333 | corrected splice: the new text contains the property declaration |
| AutoFix.WithPropertyAsWritten | Scripts/github_actions_monitor.py:300-333 | as written, with the splice at the stale brace index: the new text still contains the property declaration |
| AutoFix.StaleSpliceLandsEarly | Scripts/github_actions_monitor.py:284-333 | as written, when the annotations using is added before the class, the brace moves 45 characters on and the splice still goes at the old index |
| AutoFix.AnnotationsStep | Scripts/github_actions_monitor.py:327-331 | adding the annotations using after the first using moves the brace by its 45 characters |
| AutoFix.MissingPropertyFix | Scripts/github_actions_monitor.py:236-341 | a rewrite goes to the target file and needs the class and property names; the property is spliced in at the brace index found before the using lines were added |
| AutoFix.MissingPropertyFixSound | Scripts/github_actions_monitor.py:236-341 | a rewrite happens exactly when the file exists, the names are read, the class is found and its end is found; the text written, as spliced at the stale index, declares the property |
| AutoFix.FixMissingProperty | Scripts/github_actions_monitor.py:236-341 | the step-by-step fixer gives MissingPropertyFix, the splice as written |
| AutoFix.SpacesEnd | Scripts/github_actions_monitor.py:390 | the end of the white-space run from an index |
| AutoFix.WordEnd | Scripts/github_actions_monitor.py:390 | the end of the word run from an index |
| AutoFix.SemicolonFrom | Scripts/github_actions_monitor.py:390 | the first semicolon from an index, with none before it |
| AutoFix.AssignmentAt | Scripts/github_actions_monitor.py:390 | an assignment found at an index has a word, "=", an expression without a semicolon and a closing semicolon, in that order |
| AutoFix.FindAssignment | Scripts/github_actions_monitor.py:390 | the leftmost assignment, whose name is a word |
| AutoFix.CastTarget | Scripts/github_actions_monitor.py:385-394 | the cast is aimed at the line the record names, which exists, with a word variable and a non-empty expression |
| AutoFix.TypeConversionFix | Scripts/github_actions_monitor.py:343-407 | a rewrite goes to the target file, needs both types, and has an assignment on the named line |
| AutoFix.FixTypeConversion | Scripts/github_actions_monitor.py:343-407 | the step-by-step fixer gives TypeConversionFix |
| AutoFix.CastRewritesOneLine | Scripts/github_actions_monitor.py:385-401 | when the target type holds no newline, the rewrite changes only the named line, into the cast line |
| AutoFix.CastLineFree | Scripts/github_actions_monitor.py:396 | the cast line holds no newline when its parts hold none |
| AutoFix.CastLine | Scripts/github_actions_monitor.py:396 | `str.replace` of "name = expression" by the cast form: a line not containing the assignment literally comes back unchanged |
| AutoFix.ReplacedLineSplits | Scripts/github_actions_monitor.py:397-401 | joining the lines with one replaced and splitting again gives those lines back |
| AutoFix.CastWithoutLiteralKeepsText | Scripts/github_actions_monitor.py:390-401 | when the line does not contain "name = expression" literally, the rewrite is counted but leaves the file as it was |
| AutoFix.FixOne | Scripts/github_actions_monitor.py:424-428 | a record of another kind gets no fix |
| AutoFix.FixAllBounded | Scripts/github_actions_monitor.py:409-433 | no more fixes are counted than records of a fixable kind, and with none the tree is unchanged |
| AutoFix.FixAllKeepsFiles | Scripts/github_actions_monitor.py:409-433 | the fixes create and delete no files |
| AutoFix.FixAll | Scripts/github_actions_monitor.py:409-433 | the count and tree after fixing the records in order; the count never exceeds the number of records |
| AutoFix.AfterFix | Scripts/github_actions_monitor.py:421-431 | one more record raises the count by at most one |
| AutoFix.ApplyFixer | Scripts/github_actions_monitor.py:424-428 | the fixer called for a record is FixOne |
| AutoFix.AfterFixOf | Scripts/github_actions_monitor.py:421-431 | one record adds one to the count exactly when its fix rewrites, and applies it |
| AutoFix.FixAllStep | Scripts/github_actions_monitor.py:421-431 | one more record extends the run by its fix against the tree as it then is |
| AutoFix.FixAllSnoc | Scripts/github_actions_monitor.py:421-431 | the same step stated over the record and the state before it |
| AutoFix.FixErrors | Scripts/github_actions_monitor.py:409-433 | the loop's count and tree are FixAll's |
| Monitor.MaxId | Scripts/github_actions_monitor.py:490-491 | the candidate watermark is no smaller than the starting value and no smaller than any run id in the batch |
| Monitor.ScanMarkIsMax | Scripts/github_actions_monitor.py:484-491 | after a pass over a non-empty batch the watermark is the largest of the old watermark and every run id; an empty batch leaves it alone |
| Monitor.WatermarkMonotone | Scripts/github_actions_monitor.py:486-491 | once set, the watermark never moves backwards |
| Monitor.ScanExamines | Scripts/github_actions_monitor.py:484-494 | the runs whose logs are read are exactly the completed, failed runs above the watermark in force when each is reached, in batch order |
| Monitor.HandleRunShape | Scripts/github_actions_monitor.py:495-514 | handling one failed run rewrites only files already in the tree and commits at most once, and only when at least one fix was applied |
| Monitor.HandleAllCommits | Scripts/github_actions_monitor.py:484-514 | every commit of a pass carries at least one fix, there is at most one commit per examined run, and the tree keeps its set of files |
| Monitor.HandleAllSnoc | Scripts/github_actions_monitor.py:484-514 | handling one more run continues from the tree the earlier runs left and appends its commit to theirs |
| Monitor.ScanSnoc | Scripts/github_actions_monitor.py:484-494 | one more run either is skipped as already seen or advances the watermark and is examined exactly when it completed with failure |
| Monitor.Scan | Scripts/github_actions_monitor.py:484-494 | the watermark after the pass and the ids examined: no more ids than runs, and each the id of a completed, failed run of the batch |
| Monitor.HandleRun | Scripts/github_actions_monitor.py:495-514 | one failed run yields at most one commit, whose fix count is positive and at most the number of records in its log |
| Monitor.HandleAll | Scripts/github_actions_monitor.py:484-514 | at most one commit per examined run |
| Monitor.RunMonitor.constructor | Scripts/github_actions_monitor.py:84 | a new monitor has no watermark |
| Monitor.RunMonitor.HandleFailedRun | Scripts/github_actions_monitor.py:498-514 | an empty log changes nothing; otherwise the log's findings are fixed and a commit is recorded exactly when the fix count is positive |
| Monitor.RunMonitor.Poll | Scripts/github_actions_monitor.py:471-519 | one polling pass leaves the watermark the reference scan computes and the tree and commits that handling the examined runs in order produces |

## Left out

- Network, process and file-system I/O are not modelled. This covers:
  - the GitHub REST calls, log download, unzipping and temporary files (`Scripts/github_actions_monitor.py:86-165`);
  - git add, commit and push (435-463);
  - the sleep and exception handling of the polling loop, and argument parsing (465-543);
  - `Scripts/monitor_launcher.py`.

  Logs are passed in as strings, the file tree is a map, and each commit is recorded only as its fix count.
- The monitor's console output is not modelled, because it has no effect on state.
- Python's regular-expression engine is not modelled. Each pattern is a deterministic matcher over the shapes the code relies on.
- `\w` (`Text.IsWordChar`) and `\d` are taken over ASCII. Python's Unicode `\w` and `\d` also accept other letters and decimal digits, which are not modelled. `\s`, `isspace()` and `strip()` use Python's full white-space set (`Text.IsPySpace`).
- LogParser.DigitRun: reads ASCII digits only. The source's `\d` also accepts other Unicode decimal digits, such as Arabic-Indic digits.
- String ordering is ordinal, by Unicode code points. The culture-sensitive comparer that LINQ `OrderBy` uses on strings is not modelled.
- C# `decimal` is `real`. Its 28-digit precision and rounding are not modelled, so no operation here overflows or rounds.
- 32-bit `int` wrap-around is modelled (`Wrap32`) only where the source computes with `int`, such as the entry sequence number and the paging offset. Elsewhere integers are unbounded.
- EF Core is not modelled: change tracking, `Include`, SaveChanges, transactions and their rollback. Each service call is one atomic update, and a failed one changes nothing. An exception a service call throws is not modelled in the controller's page: a response records the calls made and the page shown when they return.
- `JournalController.FormOf`, `JournalController.EditView`, `JournalController.Edited`: these take the entry with its lines loaded. `GeneralLedgerService.GetJournalEntryByIdAsync` (`GeneralLedgerService.cs:50-56`) passes `je => je.FiscalPeriod` into the `includeBuilder` parameter of `GetByIdAsync` (`Data/Repository/Repository.cs:57`), so it does not type-check as written, and it includes no `Lines`. `JournalEntry.Lines` (`Areas/Accounting/Models/JournalEntry.cs:126`) has no initializer, so as written the Edit actions' `Lines.Select` (`JournalEntriesController.cs:235`) and `Lines.Clear()` (`:326`) would meet a null collection.
- The Excel and PDF exports (`Areas/Accounting/Services/FinancialReportingService.cs:443-927`) are not modelled. They are layout over external libraries with `double` coordinates.
- The hard-coded example cash-flow amounts of `FinancialReportingService.cs:387-429` appear only as the constants they are.
- The `cashAccounts` query of `FinancialReportingService.cs:346` is not modelled, because nothing reads it.
- Attachment upload and download in `JournalEntriesController.cs` are not modelled, because they are file I/O. The controller's select lists and view data are not modelled either.
- `JournalController`: the recurrence, source-document and withholding-amount fields of the form are not modelled, because they are copied without any check.
- ClientsVendors.ParseVendorType: models `Enum.TryParse` as trimming white space and then reading one member name, case-sensitively as the overload the code calls does, or an Int32 numeral. A comma-separated list of names, whose values `Enum.TryParse` combines, is not modelled.
- GeneralLedger.CreatedEntry: the generated number is proved new only while every stored number of the month is the month followed by four digits. Past sequence 9999 the code as written hands out a taken number (see Findings).
- `GeneralLedgerService.cs:143-146` passes `je => je.Number` as the second argument of `FindAllAsync`. `Data/Repository/Repository.cs:12` declares that parameter as an include builder, so the call does not type-check as written. The model ignores that argument and keeps the filter and the descending order by number.
- `AddYears` and calendar arithmetic are parameters of the cash-flow statement, because they depend on the calendar.
- `DateTime.Now`, `DateTime.UtcNow` and `DateTime.Today` are parameters.
- The timestamp format used in the audit CSV is a parameter (`showTime`), because it depends on culture.
- The audit CSV assumes `Environment.NewLine` is `"\n"`, and its fields are not quoted or escaped, as in the source. The text encoding of the exported bytes is not modelled.
- A null string is stored as `""` wherever the source treats the two alike.
- The HttpContext user and IP lookups of `AuditService.cs` are parameters.
- `Repository.GetPaged`, `Repository.TotalPages`, `GeneralLedger.ListEntries`, `GeneralLedger.ListedEntries`, `Audit.GetAuditLogs`, `Audit.ListedLogs`, `Audit.FirstPageHoldsAll`: these require `pageSize > 0`, which every caller meets (the default page size is 50). With zero, the source's `(int)Math.Ceiling(count / 0.0)` has no defined value.
- Sorting.SortBy: stated as a sorted permutation. The relative order of rows with equal keys, which LINQ's `OrderBy` keeps, is not stated.
- `CostCenters.UpdateCostCenter`, `ChartOfAccounts.UpdateAccount`: like the source, these recompute the level of the updated row only. The levels of its descendants are not propagated, and `CostCenters.UpdateStrandsChildren` shows the resulting state.
- `PeriodManagementService.GetCurrentFiscalPeriodAsync` and `GetFiscalPeriodsForYearAsync` are not modelled. They are one-line queries over an unseen specification class.
- `GeneralLedgerService.GetAuditTrailAsync` is not modelled, for the same reason.
- `ChartOfAccountsService.GetAccountHierarchyAsync` and `CostCenterService.GetCostCenterHierarchyAsync` are not modelled, for the same reason.
- Plain reads by id and list-all reads are modelled only through `Repository.GetById` and `Where`.
- Null-argument guards (`ArgumentNullException`) are not modelled, because Dafny values are never null.
- Some section totals in `FinancialStatementService.cs` are never assigned: equity's own total, the revenue section's own total, and the investing and financing totals of the cash flow. They stay 0 in the model, as in the source.
- The statements' `if`/`else if` chain of account-code ranges is modelled as a walk over a list of (range, bucket) pairs in the source's order.
- Migrations, seeding, the DbContext, the other controllers, the DTO and model classes, and localization hold no behaviour beyond data shapes, so they are not modelled.
- `Scripts/test_monitor.py` is evidence for properties only.

## Findings

| source | as written | input that shows it | evidently intended | confidence | as-written member | corrected member |
|---|---|---|---|---|---|---|
| Scripts/github_actions_monitor.py:284-333 | the property is spliced in at the closing brace's index computed before the `using` lines are inserted above the class | a file with a `using` line and no `System.ComponentModel.DataAnnotations` using, and a non-collection property name: the declaration lands 45 characters before the brace | the property goes in immediately before the class's closing brace | not executed | AutoFix.WithPropertyAsWritten, AutoFix.StaleSpliceLandsEarly | AutoFix.WithProperty, AutoFix.PropertyBeforeBrace |
| Areas/Accounting/Services/GeneralLedgerService.cs:136-155 | the next entry number continues from the ordinally greatest number of the month | month 202401 with "2024019999" and "20240110000" stored: "2024019999" is the ordinal maximum, so "20240110000" is generated again | the next number follows the numerically greatest sequence of the month and is never one already stored | not executed | GeneralLedger.NextNumberAsWritten, GeneralLedger.NumberCollisionAsWritten | GeneralLedger.NextNumber, GeneralLedger.NextNumberFresh |
| Areas/Accounting/Controllers/JournalEntriesController.cs:473-481 | SubmitForApproval sets the fetched (tracked) entry to Pending before handing it to the service update, whose Draft-only guard then refuses it | any stored Draft entry: the update sees a Pending row and fails | a Draft entry becomes Pending, and Approve and Reject then accept it | not executed | JournalController.SubmitResponse, JournalController.SubmitNeverPends | JournalController.Submitted, JournalController.SubmittedAwaitsReview |
| Areas/Accounting/Controllers/JournalEntriesController.cs:309-351 | Edit sets the form's status on the tracked entry, calls the service update, and only then tests that entry for Posted | a stored Draft entry in an open period and a balanced form with status Posted: the update sees a Posted row and refuses it, and had it succeeded it would have set the entry to Draft; `PostJournalEntryAsync` is never called | the edit is saved and the entry is then posted when the form says Posted | not executed | JournalController.EditResponse, JournalController.EditNeverPosts | JournalController.EditIntended, JournalController.EditIntendedPosts |

The operations follow the code as written: `AutoFix.MissingPropertyFix` splices at the stale index, `GeneralLedger.Created` numbers entries by the ordinal maximum, `JournalController.SubmitResponse` hands the service the entry already marked Pending, and `JournalController.EditResponse` makes no posting call. Each corrected member stands beside its as-written one, with the intended property proved about it.
