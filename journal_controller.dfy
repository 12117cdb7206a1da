// The journal-entry controller (Areas/Accounting/Controllers/JournalEntriesController.cs):
// the guards each action applies before it calls the general-ledger
// service, the entry it builds from the submitted form, and the page it
// answers with. An action is a function from the request and the tables it
// reads to a `Response`: the page shown and the service calls made, in
// order. What those calls then do is the service's business (GeneralLedger);
// several of them name service members that GeneralLedgerService does not
// declare, so their effect is only recorded, not modelled.

module JournalController {
  import opened Wrappers
  import opened DotNet
  import opened Ledger
  import opened Repository
  import opened EntryForms
  import PeriodStatus
  import GeneralLedger

  /** A call into the general-ledger service. */
  datatype Call =
    | AddEntry(entry: JournalEntry)
    | PostAdded
    | UpdateEntry(entry: JournalEntry)
    | DeleteEntry(id: Guid)
    | ApproveEntry(id: Guid)
    | RejectEntry(id: Guid, reason: string)
    | PostEntry(id: Guid)

  /** Why an action on a stored entry was refused (the TempData error message). */
  datatype Refusal = PostedEntry | NotDraft | NotPending | NoReason | NotApproved | PeriodClosed

  /** Why a submitted form is shown again instead of being saved. */
  datatype FormError = InvalidModel | Unbalanced | ClosedPeriod

  datatype Page =
    | NotFoundPage
    | FormPage(form: EntryForm, error: Option<FormError>)
    | EntryPage(entry: JournalEntry)
    | DetailsPage(id: Guid, refusal: Option<Refusal>)
    | IndexPage

  datatype Response = Response(page: Page, calls: seq<Call>)

  /** The page with no call made. */
  function Refuse(page: Page): Response { Response(page, []) }

  // ---------------------------------------------------------------------------
  // Lines
  // ---------------------------------------------------------------------------

  /** The line filter of Create and Edit: an account is chosen and some amount is positive. */
  predicate Kept(l: LineForm)
  {
    l.accountId != EmptyGuid && (l.debit > 0.0 || l.credit > 0.0)
  }

  /** The entry line made from a form line; its id is left for the database to assign. */
  function ToLine(l: LineForm): JournalLine
  {
    JournalLine(EmptyGuid, l.accountId, l.costCenterId, l.description, l.debit, l.credit,
                l.taxRateId, l.taxAmount, l.withholdingTaxId)
  }

  /** The form line shown for an entry line (the Select of the Edit page). */
  function ToLineForm(l: JournalLine): LineForm
  {
    LineForm(l.id, l.accountId, l.costCenterId, l.description, l.debit, l.credit,
             l.taxRateId, l.taxAmount, l.withholdingTaxId)
  }

  /** Copying a line to the form and back loses only its id. */
  lemma LineRoundTrip(l: JournalLine, f: LineForm)
    ensures ToLine(ToLineForm(l)) == l.(id := EmptyGuid)
    ensures ToLineForm(ToLine(f)) == f.(id := EmptyGuid)
  {
  }

  /** The entry lines made from the kept form lines, in form order. */
  function KeptLines(forms: seq<LineForm>): (lines: seq<JournalLine>)
    ensures |lines| <= |forms|
    ensures forall k :: 0 <= k < |lines| ==> lines[k].accountId != EmptyGuid && (lines[k].debit > 0.0 || lines[k].credit > 0.0)
    decreases |forms|
  {
    if forms == [] then []
    else KeptLines(forms[..|forms| - 1]) + (if Kept(forms[|forms| - 1]) then [ToLine(forms[|forms| - 1])] else [])
  }

  lemma KeptLinesSnoc(forms: seq<LineForm>, i: nat)
    requires i < |forms|
    ensures KeptLines(forms[..i + 1]) == KeptLines(forms[..i]) + (if Kept(forms[i]) then [ToLine(forms[i])] else [])
  {
    assert forms[..i + 1][..i] == forms[..i];
  }

  /** Every kept form line reappears, and nothing else does. */
  lemma {:induction false} KeptLinesExact(forms: seq<LineForm>)
    ensures forall k :: 0 <= k < |forms| && Kept(forms[k]) ==> ToLine(forms[k]) in KeptLines(forms)
    ensures forall l :: l in KeptLines(forms) ==> exists k :: 0 <= k < |forms| && Kept(forms[k]) && l == ToLine(forms[k])
    decreases |forms|
  {
    if forms != [] {
      var init := forms[..|forms| - 1];
      KeptLinesExact(init);
      forall k | 0 <= k < |forms| && Kept(forms[k]) ensures ToLine(forms[k]) in KeptLines(forms) {
        if k < |init| { assert forms[k] == init[k]; }
      }
      forall l | l in KeptLines(forms)
        ensures exists k :: 0 <= k < |forms| && Kept(forms[k]) && l == ToLine(forms[k])
      {
        if l in KeptLines(init) {
          var k :| 0 <= k < |init| && Kept(init[k]) && l == ToLine(init[k]);
          assert forms[k] == init[k];
        }
      }
    }
  }

  /** When the lines the filter drops carry no amounts, the kept lines have the
      form's totals, so the entry balances exactly when the form does. */
  lemma {:induction false} KeptLinesTotals(forms: seq<LineForm>)
    requires forall k :: 0 <= k < |forms| && !Kept(forms[k]) ==> forms[k].debit == 0.0 && forms[k].credit == 0.0
    ensures TotalDebit(KeptLines(forms)) == Sum(forms, (l: LineForm) => l.debit)
    ensures TotalCredit(KeptLines(forms)) == Sum(forms, (l: LineForm) => l.credit)
    decreases |forms|
  {
    if forms != [] {
      var init := forms[..|forms| - 1];
      var last := forms[|forms| - 1];
      KeptLinesTotals(init);
      var tail := if Kept(last) then [ToLine(last)] else [];
      assert KeptLines(forms) == KeptLines(init) + tail;
      SumAppend(KeptLines(init), tail, (l: JournalLine) => l.debit);
      SumAppend(KeptLines(init), tail, (l: JournalLine) => l.credit);
      assert forms == init + [last];
      SumAppend(init, [last], (l: LineForm) => l.debit);
      SumAppend(init, [last], (l: LineForm) => l.credit);
    }
  }

  /** The foreach/Add loop of Create and Edit. */
  method CopyLines(forms: seq<LineForm>) returns (lines: seq<JournalLine>)
    ensures lines == KeptLines(forms)
  {
    lines := [];
    for i := 0 to |forms|
      invariant lines == KeptLines(forms[..i])
    {
      KeptLinesSnoc(forms, i);
      if Kept(forms[i]) {
        lines := lines + [ToLine(forms[i])];
      }
    }
    assert forms[..|forms|] == forms;
  }

  // ---------------------------------------------------------------------------
  // Create and Edit
  // ---------------------------------------------------------------------------

  /** Where a form's posting date falls: midnight of its day. */
  function PostingTime(f: EntryForm): Ticks { StartOfDay(f.postingDay) }

  /** The entry Create builds: the form's fields, the uploaded attachment, no
      reference, and the kept lines. */
  function NewEntry(f: EntryForm, upload: Option<string>, lines: seq<JournalLine>): (e: JournalEntry)
    ensures e.id == EmptyGuid && e.reference == "" && e.totalDebit == 0.0 && e.totalCredit == 0.0
    ensures e.number == f.number && e.status == f.status && e.attachmentUrl == upload && e.lines == lines
  {
    JournalEntry(EmptyGuid, f.number, f.entryDate, PostingTime(f), f.description, "", f.status, 0.0, 0.0,
                 f.clientId, f.vendorId, f.currency, f.exchangeRate, f.notes, upload, f.fiscalPeriodId, 0,
                 None, None, None, lines)
  }

  /** The calls that save an entry: the save, then a posting when the entry says Posted. */
  function SaveCalls(save: Call, posting: Call, status: EntryStatus): (cs: seq<Call>)
    ensures 1 <= |cs| <= 2 && cs[0] == save && (|cs| == 2 <==> status == Posted)
  {
    [save] + (if status == Posted then [posting] else [])
  }

  /** Create (POST): an invalid, unbalanced or closed-period form is shown again
      and nothing is saved; otherwise the entry is added and the list shown. */
  function CreateResponse(f: EntryForm, modelValid: bool, periods: seq<FiscalPeriod>, upload: Option<string>): (r: Response)
    ensures r.calls != [] <==> modelValid && IsBalanced(f) && !PeriodStatus.IsPeriodClosed(periods, PostingTime(f))
    ensures r.calls == [] ==> r.page.FormPage? && r.page.form == f
    ensures modelValid && !IsBalanced(f) ==> r.page.error == Some(Unbalanced)
    ensures r.calls != [] ==> r.page == IndexPage && r == Response(IndexPage, SaveCalls(AddEntry(NewEntry(f, upload, KeptLines(f.lines))), PostAdded, f.status))
  {
    if !modelValid then Refuse(FormPage(f, Some(InvalidModel)))
    else if !IsBalanced(f) then Refuse(FormPage(f, Some(Unbalanced)))
    else if PeriodStatus.IsPeriodClosed(periods, PostingTime(f)) then Refuse(FormPage(f, Some(ClosedPeriod)))
    else Response(IndexPage, SaveCalls(AddEntry(NewEntry(f, upload, KeptLines(f.lines))), PostAdded, f.status))
  }

  /** Create (POST), building the entry and its lines step by step. */
  method Create(f: EntryForm, modelValid: bool, periods: seq<FiscalPeriod>, upload: Option<string>) returns (r: Response)
    ensures r == CreateResponse(f, modelValid, periods, upload)
  {
    if !modelValid {
      return Refuse(FormPage(f, Some(InvalidModel)));
    }
    if !IsBalanced(f) {
      return Refuse(FormPage(f, Some(Unbalanced)));
    }
    var closed := PeriodStatus.IsPeriodClosed(periods, PostingTime(f));
    if closed {
      return Refuse(FormPage(f, Some(ClosedPeriod)));
    }
    var entry := NewEntry(f, upload, []);
    var lines := CopyLines(f.lines);
    entry := entry.(lines := lines);
    var calls := [AddEntry(entry)];
    if entry.status == Posted {
      calls := calls + [PostAdded];
    }
    r := Response(IndexPage, calls);
  }

  /** The entry as Edit leaves it: the form's fields over the stored ones, the
      new upload or else the old attachment, and the lines wholly replaced. */
  function Edited(stored: JournalEntry, f: EntryForm, upload: Option<string>): (e: JournalEntry)
    ensures e.id == stored.id && e.number == stored.number && e.reference == stored.reference
    ensures e.totalDebit == stored.totalDebit && e.totalCredit == stored.totalCredit && e.createdAt == stored.createdAt
    ensures upload.None? ==> e.attachmentUrl == stored.attachmentUrl
    ensures e.lines == KeptLines(f.lines)
  {
    stored.(entryDate := f.entryDate, postingDate := PostingTime(f), description := f.description, status := f.status,
            clientId := f.clientId, vendorId := f.vendorId, currency := f.currency, exchangeRate := f.exchangeRate,
            attachmentUrl := if upload.Some? then upload else stored.attachmentUrl, notes := f.notes,
            fiscalPeriodId := f.fiscalPeriodId, lines := KeptLines(f.lines))
  }

  /** Edit keeps the entry's identity, number, reference, stored totals,
      creation time and review fields, and its new lines do not depend on the
      old ones. */
  lemma EditedKeeps(stored: JournalEntry, other: JournalEntry, f: EntryForm, upload: Option<string>)
    requires other == stored.(lines := other.lines)
    ensures var e := Edited(stored, f, upload);
      e.id == stored.id && e.number == stored.number && e.reference == stored.reference &&
      e.totalDebit == stored.totalDebit && e.totalCredit == stored.totalCredit && e.createdAt == stored.createdAt &&
      e.approvedById == stored.approvedById && e.approvedAt == stored.approvedAt && e.rejectionReason == stored.rejectionReason
    ensures Edited(other, f, upload) == Edited(stored, f, upload)
    ensures Edited(stored, f, upload).lines == KeptLines(f.lines)
  {
  }

  /** The Edit page's form for a stored entry (the GET action's view model). */
  function FormOf(e: JournalEntry): (f: EntryForm)
    ensures |f.lines| == |e.lines| && forall k :: 0 <= k < |e.lines| ==> f.lines[k] == ToLineForm(e.lines[k])
  {
    EntryForm(e.id, e.number, e.entryDate, DayOf(e.postingDate), e.reference, e.description, e.status,
              e.clientId, e.vendorId, e.currency, e.exchangeRate, e.notes, e.fiscalPeriodId,
              seq(|e.lines|, k requires 0 <= k < |e.lines| => ToLineForm(e.lines[k])))
  }

  /** Saving the Edit page unchanged gives back the entry, except that the
      posting date drops to midnight and line ids are cleared, when every line
      has an account and an amount. */
  lemma {:induction false} EditUnchanged(e: JournalEntry)
    requires forall k :: 0 <= k < |e.lines| ==> e.lines[k].accountId != EmptyGuid && (e.lines[k].debit > 0.0 || e.lines[k].credit > 0.0)
    ensures Edited(e, FormOf(e), None) ==
            e.(postingDate := StartOfDay(DayOf(e.postingDate)), lines := ClearedIds(e.lines))
  {
    KeptAll(e.lines, FormOf(e).lines);
  }

  /** The lines with their ids cleared. */
  function ClearedIds(lines: seq<JournalLine>): (r: seq<JournalLine>)
    ensures |r| == |lines| && forall k :: 0 <= k < |lines| ==> r[k] == lines[k].(id := EmptyGuid)
  {
    seq(|lines|, k requires 0 <= k < |lines| => lines[k].(id := EmptyGuid))
  }

  lemma {:induction false} KeptAll(lines: seq<JournalLine>, forms: seq<LineForm>)
    requires |forms| == |lines| && forall k :: 0 <= k < |lines| ==> forms[k] == ToLineForm(lines[k])
    requires forall k :: 0 <= k < |lines| ==> lines[k].accountId != EmptyGuid && (lines[k].debit > 0.0 || lines[k].credit > 0.0)
    ensures KeptLines(forms) == ClearedIds(lines)
    decreases |lines|
  {
    if lines != [] {
      var n := |lines| - 1;
      KeptAll(lines[..n], forms[..n]);
      LineRoundTrip(lines[n], forms[n]);
      assert Kept(forms[n]);
      assert ClearedIds(lines) == ClearedIds(lines[..n]) + [lines[n].(id := EmptyGuid)];
    }
  }

  /** Edit (POST): a route id that is not the form's is not found; a missing
      entry is not found; a Posted entry is refused; an invalid, unbalanced or
      closed-period form is shown again; otherwise the edited entry is handed
      to the service's update. The action then posts the entry when its status
      is Posted, but it reads that status off the entry the update has just
      handled, which the update either refused or set to Draft: the posting
      is never called (EditNeverPosts). */
  function EditResponse(id: Guid, f: EntryForm, modelValid: bool, entries: seq<JournalEntry>,
                        periods: seq<FiscalPeriod>, upload: Option<string>): (r: Response)
    ensures id != f.id ==> r == Refuse(NotFoundPage)
    ensures r.calls != [] <==>
              id == f.id && modelValid && GeneralLedger.Stored(entries, id).Some? &&
              GeneralLedger.Stored(entries, id).value.status != Posted &&
              IsBalanced(f) && !PeriodStatus.IsPeriodClosed(periods, PostingTime(f))
    ensures id == f.id && modelValid && GeneralLedger.Stored(entries, id).None? ==> r == Refuse(NotFoundPage)
    ensures id == f.id && modelValid && GeneralLedger.HasStatus(GeneralLedger.Stored(entries, id), Posted, Posted) ==>
              r == Refuse(DetailsPage(id, Some(PostedEntry)))
    ensures r.calls != [] ==> r == Response(IndexPage, [UpdateEntry(Edited(GeneralLedger.Stored(entries, id).value, f, upload))])
  {
    if id != f.id then Refuse(NotFoundPage)
    else if !modelValid then Refuse(FormPage(f, Some(InvalidModel)))
    else
      var stored := GeneralLedger.Stored(entries, id);
      if stored.None? then Refuse(NotFoundPage)
      else if stored.value.status == Posted then Refuse(DetailsPage(id, Some(PostedEntry)))
      else if !IsBalanced(f) then Refuse(FormPage(f, Some(Unbalanced)))
      else if PeriodStatus.IsPeriodClosed(periods, PostingTime(f)) then Refuse(FormPage(f, Some(ClosedPeriod)))
      else Response(IndexPage, [UpdateEntry(Edited(stored.value, f, upload))])
  }

  /** Edit's field assignments on the fetched entry, then its lines cleared and re-added. */
  method EditEntry(stored: JournalEntry, f: EntryForm, upload: Option<string>) returns (e: JournalEntry)
    ensures e == Edited(stored, f, upload)
  {
    var attachmentUrl := stored.attachmentUrl;
    if upload.Some? {
      attachmentUrl := upload;
    }
    e := stored.(entryDate := f.entryDate, postingDate := PostingTime(f), description := f.description);
    e := e.(status := f.status, clientId := f.clientId, vendorId := f.vendorId);
    e := e.(currency := f.currency, exchangeRate := f.exchangeRate, attachmentUrl := attachmentUrl);
    e := e.(notes := f.notes, fiscalPeriodId := f.fiscalPeriodId);
    e := e.(lines := []);
    for i := 0 to |f.lines|
      invariant e == Edited(stored, f, upload).(lines := KeptLines(f.lines[..i]))
    {
      KeptLinesSnoc(f.lines, i);
      if Kept(f.lines[i]) {
        e := e.(lines := e.lines + [ToLine(f.lines[i])]);
      }
    }
    assert f.lines[..|f.lines|] == f.lines;
  }

  /** Edit (POST), step by step. */
  method Edit(id: Guid, f: EntryForm, modelValid: bool, entries: seq<JournalEntry>,
              periods: seq<FiscalPeriod>, upload: Option<string>) returns (r: Response)
    ensures r == EditResponse(id, f, modelValid, entries, periods, upload)
  {
    if id != f.id {
      return Refuse(NotFoundPage);
    }
    if !modelValid {
      return Refuse(FormPage(f, Some(InvalidModel)));
    }
    var stored := GeneralLedger.Stored(entries, id);
    if stored.None? {
      return Refuse(NotFoundPage);
    }
    if stored.value.status == Posted {
      return Refuse(DetailsPage(id, Some(PostedEntry)));
    }
    if !IsBalanced(f) {
      return Refuse(FormPage(f, Some(Unbalanced)));
    }
    var closed := PeriodStatus.IsPeriodClosed(periods, PostingTime(f));
    if closed {
      return Refuse(FormPage(f, Some(ClosedPeriod)));
    }
    var entry := EditEntry(stored.value, f, upload);
    var calls := [UpdateEntry(entry)];
    // The entry is the tracked row: the update reads it back as the stored
    // row, and on success leaves it as it saves it.
    var updated := GeneralLedger.Updated(GeneralLedger.Put(entries, entry), periods, entry);
    if updated.Ok? && updated.value.status == Posted {
      calls := calls + [PostEntry(entry.id)];
    }
    r := Response(IndexPage, calls);
  }

  /** Edit (GET): the form of the stored entry, unless it is missing or Posted. */
  function EditView(entries: seq<JournalEntry>, id: Guid): (r: Response)
    ensures r.calls == []
    ensures GeneralLedger.Stored(entries, id).None? <==> r.page == NotFoundPage
    ensures GeneralLedger.HasStatus(GeneralLedger.Stored(entries, id), Posted, Posted) <==> r.page == DetailsPage(id, Some(PostedEntry))
  {
    var stored := GeneralLedger.Stored(entries, id);
    if stored.None? then Refuse(NotFoundPage)
    else if stored.value.status == Posted then Refuse(DetailsPage(id, Some(PostedEntry)))
    else Refuse(FormPage(FormOf(stored.value), None))
  }

  // ---------------------------------------------------------------------------
  // Delete and the review actions
  // ---------------------------------------------------------------------------

  /** Delete (GET): the confirmation page, unless the entry is missing or Posted. */
  function DeleteView(entries: seq<JournalEntry>, id: Guid): (r: Response)
    ensures r.calls == []
    ensures GeneralLedger.Stored(entries, id).None? <==> r.page == NotFoundPage
    ensures GeneralLedger.HasStatus(GeneralLedger.Stored(entries, id), Posted, Posted) <==> r.page == DetailsPage(id, Some(PostedEntry))
    ensures r.page.EntryPage? ==> Some(r.page.entry) == GeneralLedger.Stored(entries, id)
  {
    var stored := GeneralLedger.Stored(entries, id);
    if stored.None? then Refuse(NotFoundPage)
    else if stored.value.status == Posted then Refuse(DetailsPage(id, Some(PostedEntry)))
    else Refuse(EntryPage(stored.value))
  }

  /** DeleteConfirmed: a stored entry that is not Posted is deleted. */
  function DeleteResponse(entries: seq<JournalEntry>, id: Guid): (r: Response)
    ensures r.calls != [] <==> GeneralLedger.Stored(entries, id).Some? && GeneralLedger.Stored(entries, id).value.status != Posted
    ensures r.calls != [] ==> r == Response(IndexPage, [DeleteEntry(id)])
    ensures GeneralLedger.Stored(entries, id).None? ==> r == Refuse(NotFoundPage)
  {
    var stored := GeneralLedger.Stored(entries, id);
    if stored.None? then Refuse(NotFoundPage)
    else if stored.value.status == Posted then Refuse(DetailsPage(id, Some(PostedEntry)))
    else Response(IndexPage, [DeleteEntry(id)])
  }

  /** SubmitForApproval: a Draft entry is handed to the service's update with
      status Pending; any other status is refused. */
  function SubmitResponse(entries: seq<JournalEntry>, id: Guid): (r: Response)
    ensures r.calls != [] <==> GeneralLedger.HasStatus(GeneralLedger.Stored(entries, id), Draft, Draft)
    ensures r.calls != [] ==> r == Response(DetailsPage(id, None), [UpdateEntry(GeneralLedger.Stored(entries, id).value.(status := Pending))])
    ensures GeneralLedger.Stored(entries, id).None? ==> r == Refuse(NotFoundPage)
  {
    var stored := GeneralLedger.Stored(entries, id);
    if stored.None? then Refuse(NotFoundPage)
    else if stored.value.status != Draft then Refuse(DetailsPage(id, Some(NotDraft)))
    else Response(DetailsPage(id, None), [UpdateEntry(stored.value.(status := Pending))])
  }

  /** Approve: only a Pending entry goes to the service's approval. */
  function ApproveResponse(entries: seq<JournalEntry>, id: Guid): (r: Response)
    ensures r.calls != [] <==> GeneralLedger.HasStatus(GeneralLedger.Stored(entries, id), Pending, Pending)
    ensures r.calls != [] ==> r == Response(DetailsPage(id, None), [ApproveEntry(id)])
    ensures GeneralLedger.Stored(entries, id).None? ==> r == Refuse(NotFoundPage)
  {
    var stored := GeneralLedger.Stored(entries, id);
    if stored.None? then Refuse(NotFoundPage)
    else if stored.value.status != Pending then Refuse(DetailsPage(id, Some(NotPending)))
    else Response(DetailsPage(id, None), [ApproveEntry(id)])
  }

  /** Reject: only a Pending entry, and only with a reason that is not blank. */
  function RejectResponse(entries: seq<JournalEntry>, id: Guid, reason: Option<string>): (r: Response)
    ensures r.calls != [] <==> GeneralLedger.HasStatus(GeneralLedger.Stored(entries, id), Pending, Pending) && !IsNullOrWhiteSpace(reason)
    ensures r.calls != [] ==> r == Response(DetailsPage(id, None), [RejectEntry(id, reason.value)])
    ensures GeneralLedger.HasStatus(GeneralLedger.Stored(entries, id), Pending, Pending) && IsNullOrWhiteSpace(reason) ==>
              r == Refuse(DetailsPage(id, Some(NoReason)))
  {
    var stored := GeneralLedger.Stored(entries, id);
    if stored.None? then Refuse(NotFoundPage)
    else if stored.value.status != Pending then Refuse(DetailsPage(id, Some(NotPending)))
    else if IsNullOrWhiteSpace(reason) then Refuse(DetailsPage(id, Some(NoReason)))
    else Response(DetailsPage(id, None), [RejectEntry(id, reason.value)])
  }

  /** Post: only an Approved entry whose posting date is in an open period. */
  function PostResponse(entries: seq<JournalEntry>, periods: seq<FiscalPeriod>, id: Guid): (r: Response)
    ensures r.calls != [] <==>
              GeneralLedger.HasStatus(GeneralLedger.Stored(entries, id), Approved, Approved) &&
              !PeriodStatus.IsPeriodClosed(periods, GeneralLedger.Stored(entries, id).value.postingDate)
    ensures r.calls != [] ==> r == Response(DetailsPage(id, None), [PostEntry(id)])
    ensures GeneralLedger.HasStatus(GeneralLedger.Stored(entries, id), Approved, Approved) &&
            PeriodStatus.IsPeriodClosed(periods, GeneralLedger.Stored(entries, id).value.postingDate) ==>
              r == Refuse(DetailsPage(id, Some(PeriodClosed)))
  {
    var stored := GeneralLedger.Stored(entries, id);
    if stored.None? then Refuse(NotFoundPage)
    else if stored.value.status != Approved then Refuse(DetailsPage(id, Some(NotApproved)))
    else if PeriodStatus.IsPeriodClosed(periods, stored.value.postingDate) then Refuse(DetailsPage(id, Some(PeriodClosed)))
    else Response(DetailsPage(id, None), [PostEntry(id)])
  }

  // ---------------------------------------------------------------------------
  // The controller against the service
  // ---------------------------------------------------------------------------

  /** No action calls the service about a Posted entry. */
  lemma PostedIsFinal(entries: seq<JournalEntry>, periods: seq<FiscalPeriod>, id: Guid, f: EntryForm,
                      modelValid: bool, upload: Option<string>, reason: Option<string>)
    requires GeneralLedger.HasStatus(GeneralLedger.Stored(entries, id), Posted, Posted)
    ensures EditResponse(id, f, modelValid, entries, periods, upload).calls == []
    ensures DeleteResponse(entries, id).calls == []
    ensures SubmitResponse(entries, id).calls == []
    ensures ApproveResponse(entries, id).calls == []
    ensures RejectResponse(entries, id, reason).calls == []
    ensures PostResponse(entries, periods, id).calls == []
  {
  }

  /** The controller's Approve is stricter than the service's: whenever it
      calls the service, the service's status check passes and the outcome
      depends only on the entry's period. */
  lemma ApproveCallStatusAccepted(entries: seq<JournalEntry>, periods: seq<FiscalPeriod>, id: Guid, userId: string, now: Ticks)
    requires ApproveResponse(entries, id).calls != []
    ensures var e := GeneralLedger.Stored(entries, id).value;
      GeneralLedger.ApprovedEntry(entries, periods, id, userId, now).Ok? <==>
        GeneralLedger.PeriodOf(periods, e).Some? && GeneralLedger.IsOpen(GeneralLedger.PeriodOf(periods, e).value)
  {
  }

  /** Whenever the controller's Reject calls the service, the service rejects the entry. */
  lemma RejectCallAccepted(entries: seq<JournalEntry>, id: Guid, reason: Option<string>, userId: string, now: Ticks)
    requires RejectResponse(entries, id, reason).calls != []
    ensures GeneralLedger.RejectedEntry(entries, id, userId, reason.value, now).Ok?
  {
  }

  /** The controller's delete guard is looser than the service's: a Pending or
      Approved entry passes the controller and is then refused by the service. */
  lemma DeleteGuardLooser(entries: seq<JournalEntry>, id: Guid)
    requires GeneralLedger.HasStatus(GeneralLedger.Stored(entries, id), Pending, Approved)
    ensures DeleteResponse(entries, id).calls == [DeleteEntry(id)]
    ensures GeneralLedger.Deleted(entries, id) == Fail(WrongStatus)
  {
  }

  /** As written, Edit never posts. The controller sets the form's status on
      the entry it fetched, the tracked row itself, so the update finds the
      row with that status: a Posted, Pending or Approved form is refused, and
      any other comes back a Draft. On a detached copy the update would also
      leave a Draft. Either way the test for Posted that follows fails. */
  lemma EditNeverPosts(id: Guid, f: EntryForm, modelValid: bool, entries: seq<JournalEntry>,
                       periods: seq<FiscalPeriod>, upload: Option<string>)
    requires EditResponse(id, f, modelValid, entries, periods, upload).calls != []
    ensures var r := EditResponse(id, f, modelValid, entries, periods, upload);
      var e := r.calls[0].entry;
      var tracked := GeneralLedger.Updated(GeneralLedger.Put(entries, e), periods, e);
      e.status == f.status && r.calls == [UpdateEntry(e)] &&
      (f.status != Draft && f.status != Rejected ==> tracked == Err(WrongStatus)) &&
      (tracked.Ok? ==> tracked.value.status == Draft) &&
      (GeneralLedger.Updated(entries, periods, e).Ok? ==> GeneralLedger.Updated(entries, periods, e).value.status == Draft)
  {
    var e := EditResponse(id, f, modelValid, entries, periods, upload).calls[0].entry;
    ReplaceStores(entries, GeneralLedger.EntryId, e);
  }

  /** The edit the action evidently intends: the form's fields are saved
      while the entry keeps its stored status, so that the update accepts a
      Draft or Rejected entry, and the entry is then posted when the form
      says Posted. */
  function EditIntended(id: Guid, f: EntryForm, modelValid: bool, entries: seq<JournalEntry>,
                        periods: seq<FiscalPeriod>, upload: Option<string>): (r: Response)
    ensures r.calls != [] <==> EditResponse(id, f, modelValid, entries, periods, upload).calls != []
    ensures r.calls == [] ==> r == EditResponse(id, f, modelValid, entries, periods, upload)
    ensures r.calls != [] ==>
              var stored := GeneralLedger.Stored(entries, id).value;
              r == Response(IndexPage, SaveCalls(UpdateEntry(Edited(stored, f, upload).(status := stored.status)), PostEntry(id), f.status))
  {
    var shown := EditResponse(id, f, modelValid, entries, periods, upload);
    if shown.calls == [] then shown
    else
      var stored := GeneralLedger.Stored(entries, id).value;
      Response(IndexPage, SaveCalls(UpdateEntry(Edited(stored, f, upload).(status := stored.status)), PostEntry(id), f.status))
  }

  /** With the intended edit, a stored Draft or Rejected entry whose edit
      validates is accepted by the update, tracked or detached, and the
      posting follows exactly when the form says Posted. */
  lemma EditIntendedPosts(id: Guid, f: EntryForm, modelValid: bool, entries: seq<JournalEntry>,
                          periods: seq<FiscalPeriod>, upload: Option<string>)
    requires EditIntended(id, f, modelValid, entries, periods, upload).calls != []
    requires GeneralLedger.HasStatus(GeneralLedger.Stored(entries, id), Draft, Rejected)
    requires GeneralLedger.Validate(periods, Edited(GeneralLedger.Stored(entries, id).value, f, upload)) == Ok(true)
    ensures var r := EditIntended(id, f, modelValid, entries, periods, upload);
      var e := r.calls[0].entry;
      GeneralLedger.Updated(GeneralLedger.Put(entries, e), periods, e).Ok? &&
      GeneralLedger.Updated(entries, periods, e).Ok? &&
      (PostEntry(id) in r.calls <==> f.status == Posted)
  {
    var r := EditIntended(id, f, modelValid, entries, periods, upload);
    var e := r.calls[0].entry;
    var stored := GeneralLedger.Stored(entries, id).value;
    assert e == Edited(stored, f, upload).(status := stored.status);
    assert GeneralLedger.Validate(periods, e) == GeneralLedger.Validate(periods, Edited(stored, f, upload));
    ReplaceStores(entries, GeneralLedger.EntryId, e);
  }

  /** As written, SubmitForApproval never leaves an entry Pending. The
      controller sets the status on the entry it fetched, which is the tracked
      row itself, so the service's update finds the row already Pending and
      refuses it; and were the row a detached copy, the update would save it
      as a Draft. */
  lemma SubmitNeverPends(entries: seq<JournalEntry>, periods: seq<FiscalPeriod>, id: Guid)
    requires SubmitResponse(entries, id).calls != []
    ensures var pending := SubmitResponse(entries, id).calls[0].entry;
      pending.status == Pending &&
      GeneralLedger.Updated(GeneralLedger.Put(entries, pending), periods, pending) == Err(WrongStatus) &&
      (GeneralLedger.Updated(entries, periods, pending).Ok? ==> GeneralLedger.Updated(entries, periods, pending).value.status == Draft)
  {
    var pending := SubmitResponse(entries, id).calls[0].entry;
    ReplaceStores(entries, GeneralLedger.EntryId, pending);
  }

  /** The submission the action evidently intends: a stored Draft entry
      becomes Pending and nothing else about it changes. */
  function Submitted(entries: seq<JournalEntry>, id: Guid): (r: Result<JournalEntry, Fault>)
    ensures r.Ok? <==> GeneralLedger.HasStatus(GeneralLedger.Stored(entries, id), Draft, Draft)
    ensures r.Ok? ==> r.value.status == Pending && r.value.(status := Draft) == GeneralLedger.Stored(entries, id).value
    ensures GeneralLedger.Stored(entries, id).None? ==> r == Err(NotFound)
  {
    var stored := GeneralLedger.Stored(entries, id);
    if stored.None? then Err(NotFound)
    else if stored.value.status != Draft then Err(WrongStatus)
    else Ok(stored.value.(status := Pending))
  }

  /** After the intended submission the entry is Pending: the controller's
      Approve and Reject then accept it, and so does the service's approval
      when its period is open. */
  lemma SubmittedAwaitsReview(entries: seq<JournalEntry>, periods: seq<FiscalPeriod>, id: Guid, reason: string,
                              userId: string, now: Ticks)
    requires Submitted(entries, id).Ok? && !IsNullOrWhiteSpace(Some(reason))
    ensures var after := GeneralLedger.Put(entries, Submitted(entries, id).value);
      ApproveResponse(after, id).calls == [ApproveEntry(id)] &&
      RejectResponse(after, id, Some(reason)).calls == [RejectEntry(id, reason)] &&
      (GeneralLedger.ApprovedEntry(after, periods, id, userId, now).Ok? <==>
        var e := Submitted(entries, id).value;
        GeneralLedger.PeriodOf(periods, e).Some? && GeneralLedger.IsOpen(GeneralLedger.PeriodOf(periods, e).value))
  {
    var e := Submitted(entries, id).value;
    ReplaceStores(entries, GeneralLedger.EntryId, e);
  }
}
