// The audit service (Areas/Accounting/Services/AuditService.cs): the records
// the two logging calls store, the log query with its filter, newest-first
// order and page, and the CSV export. The clock, the request's user and
// address and the time format are parameters; a null string is stored as "".

module Audit {
  import opened Wrappers
  import opened Text
  import opened DotNet
  import opened Sorting
  import opened Ledger
  import opened Repository

  function LogKey(l: AuditLog): nat { l.id }

  /** The text a possibly-null string stands for. */
  function OrEmpty(s: Option<string>): string
  {
    if s.Some? then s.value else ""
  }

  // ---------------------------------------------------------------------------
  // The query
  // ---------------------------------------------------------------------------

  /** BuildAuditLogFilter: a null or empty string constrains nothing, the date
      bounds are inclusive, and all conditions must hold. */
  predicate LogFilter(entityName: Option<string>, entityId: Option<string>, userId: Option<string>,
                      fromDate: Option<Ticks>, toDate: Option<Ticks>, l: AuditLog)
    ensures LogFilter(entityName, entityId, userId, fromDate, toDate, l) && fromDate.Some? && toDate.Some? ==>
              fromDate.value <= toDate.value
  {
    (IsNullOrEmpty(entityName) || l.entityName == entityName.value) &&
    (IsNullOrEmpty(entityId) || l.entityId == entityId.value) &&
    (IsNullOrEmpty(userId) || l.userId == userId.value) &&
    (fromDate.None? || l.timestamp >= fromDate.value) &&
    (toDate.None? || l.timestamp <= toDate.value)
  }

  function LogMatches(entityName: Option<string>, entityId: Option<string>, userId: Option<string>,
                      fromDate: Option<Ticks>, toDate: Option<Ticks>): AuditLog -> bool
  {
    (l: AuditLog) => LogFilter(entityName, entityId, userId, fromDate, toDate, l)
  }

  /** An empty string filters like a null one. */
  lemma EmptyFilterIsNoFilter(l: AuditLog, fromDate: Option<Ticks>, toDate: Option<Ticks>)
    ensures LogFilter(Some(""), Some(""), Some(""), fromDate, toDate, l) == LogFilter(None, None, None, fromDate, toDate, l)
    ensures LogFilter(None, None, None, None, None, l)
  {
  }

  /** BuildAuditLogOrderBy: newest first. */
  function LogOrderKey(l: AuditLog): seq<int> { [l.timestamp] }

  function NewestFirst(s: seq<AuditLog>): (r: seq<AuditLog>)
    ensures multiset(r) == multiset(s) && SortedBy(r, LogOrderKey, true)
  {
    SortBy(s, LogOrderKey, true)
  }

  /** GetAuditLogsAsync: the items of the requested page. */
  function GetAuditLogs(logs: seq<AuditLog>, entityName: Option<string>, entityId: Option<string>, userId: Option<string>,
                        fromDate: Option<Ticks>, toDate: Option<Ticks>, pageIndex: int, pageSize: int): (r: seq<AuditLog>)
    requires pageSize > 0
    ensures |r| <= pageSize
  {
    GetPaged(logs, pageIndex, pageSize, Some(LogMatches(entityName, entityId, userId, fromDate, toDate)), Some(NewestFirst)).items
  }

  /** A page holds only stored logs that pass the filter, newest first. */
  lemma ListedLogs(logs: seq<AuditLog>, entityName: Option<string>, entityId: Option<string>, userId: Option<string>,
                   fromDate: Option<Ticks>, toDate: Option<Ticks>, pageIndex: int, pageSize: int)
    requires pageSize > 0
    ensures var r := GetAuditLogs(logs, entityName, entityId, userId, fromDate, toDate, pageIndex, pageSize);
      forall x :: x in r ==> x in logs && LogFilter(entityName, entityId, userId, fromDate, toDate, x)
    ensures SortedBy(GetAuditLogs(logs, entityName, entityId, userId, fromDate, toDate, pageIndex, pageSize), LogOrderKey, true)
  {
    var m := LogMatches(entityName, entityId, userId, fromDate, toDate);
    var filtered := Where(logs, m);
    var ordered := NewestFirst(filtered);
    var items := GetAuditLogs(logs, entityName, entityId, userId, fromDate, toDate, pageIndex, pageSize);
    assert items == PageOf(ordered, pageIndex, pageSize);
    PageWithin(ordered, pageIndex, pageSize, LogOrderKey, true);
    WhereMembers(logs, m);
    forall x | x in items ensures x in logs && m(x) {
      assert x in multiset(ordered);
      assert x in filtered;
    }
  }

  /** The first page holds every matching log when they all fit on it. */
  lemma FirstPageHoldsAll(logs: seq<AuditLog>, entityName: Option<string>, entityId: Option<string>, userId: Option<string>,
                          fromDate: Option<Ticks>, toDate: Option<Ticks>, pageSize: int)
    requires pageSize > 0
    requires |Where(logs, LogMatches(entityName, entityId, userId, fromDate, toDate))| <= pageSize
    ensures multiset(GetAuditLogs(logs, entityName, entityId, userId, fromDate, toDate, 1, pageSize)) ==
            multiset(Where(logs, LogMatches(entityName, entityId, userId, fromDate, toDate)))
  {
    var ordered := NewestFirst(Where(logs, LogMatches(entityName, entityId, userId, fromDate, toDate)));
    PageSlice(ordered, 1, pageSize);
    assert ordered[0..|ordered|] == ordered;
  }

  // ---------------------------------------------------------------------------
  // The CSV export
  // ---------------------------------------------------------------------------

  const CsvHeader: string := "Entity Name," + "Entity ID," + "Action," + "User ID," + "Timestamp," + "IP Address"

  /** The header line holds no line break. */
  lemma HeaderOneLine()
    ensures NewLine !in CsvHeader
  {
    assert NewLine !in "Entity Name," && NewLine !in "Entity ID," && NewLine !in "Action,";
    assert NewLine !in "User ID," && NewLine !in "Timestamp," && NewLine !in "IP Address";
  }

  /** The line terminator AppendLine writes (Environment.NewLine on Unix). */
  const NewLine: char := '\n'

  /** The six exported fields of a log, the time as the format renders it. */
  function CsvFields(l: AuditLog, showTime: Ticks -> string): (fields: seq<string>)
    ensures |fields| == 6
  {
    [l.entityName, l.entityId, l.action, l.userId, showTime(l.timestamp), l.ipAddress]
  }

  /** One data line: the fields joined by commas, nothing quoted or escaped. */
  function CsvRow(l: AuditLog, showTime: Ticks -> string): (r: string)
    ensures FieldsFree(l, showTime, NewLine) ==> NewLine !in r
  {
    var fields := CsvFields(l, showTime);
    assert FieldsFree(l, showTime, NewLine) ==> NewLine !in JoinWith(fields, ',') by {
      if FieldsFree(l, showTime, NewLine) {
        JoinFree(fields, ',', NewLine);
      }
    }
    JoinWith(fields, ',')
  }

  /** The data lines of `logs`, each with its terminator. */
  function CsvRows(logs: seq<AuditLog>, showTime: Ticks -> string): string
  {
    if logs == [] then "" else CsvRow(logs[0], showTime) + [NewLine] + CsvRows(logs[1..], showTime)
  }

  function CsvText(logs: seq<AuditLog>, showTime: Ticks -> string): (r: string)
    ensures CsvHeader + [NewLine] <= r
  {
    CsvHeader + [NewLine] + CsvRows(logs, showTime)
  }

  lemma {:induction false} CsvRowsSnoc(logs: seq<AuditLog>, l: AuditLog, showTime: Ticks -> string)
    ensures CsvRows(logs + [l], showTime) == CsvRows(logs, showTime) + CsvRow(l, showTime) + [NewLine]
  {
    if logs == [] {
      assert logs + [l] == [l];
    } else {
      assert (logs + [l])[1..] == logs[1..] + [l];
      CsvRowsSnoc(logs[1..], l, showTime);
    }
  }

  lemma CsvRowsStep(header: string, logs: seq<AuditLog>, i: nat, showTime: Ticks -> string)
    requires i < |logs|
    ensures header + CsvRows(logs[..i + 1], showTime)
            == header + CsvRows(logs[..i], showTime) + CsvRow(logs[i], showTime) + [NewLine]
  {
    CsvRowsSnoc(logs[..i], logs[i], showTime);
    assert logs[..i + 1] == logs[..i] + [logs[i]];
  }

  /** ExportAuditLogsToCsvAsync, before the UTF-8 encoding. */
  method ExportAuditLogsToCsv(logs: seq<AuditLog>, showTime: Ticks -> string) returns (csv: string)
    ensures csv == CsvText(logs, showTime)
  {
    var header := CsvHeader + [NewLine];
    csv := header;
    for i := 0 to |logs|
      invariant csv == header + CsvRows(logs[..i], showTime)
    {
      CsvRowsStep(header, logs, i, showTime);
      csv := csv + CsvRow(logs[i], showTime) + [NewLine];
    }
    assert logs[..|logs|] == logs;
  }

  /** No field of the log (as exported) contains `c`. */
  predicate FieldsFree(l: AuditLog, showTime: Ticks -> string, c: char)
  {
    forall k :: 0 <= k < 6 ==> c !in CsvFields(l, showTime)[k]
  }

  /** The data lines, one per log, in input order. */
  function RowList(logs: seq<AuditLog>, showTime: Ticks -> string): (rows: seq<string>)
    ensures |rows| == |logs|
    ensures forall k :: 0 <= k < |logs| ==> rows[k] == CsvRow(logs[k], showTime)
  {
    if logs == [] then [] else [CsvRow(logs[0], showTime)] + RowList(logs[1..], showTime)
  }

  lemma {:induction false} JoinFree(parts: seq<string>, sep: char, c: char)
    requires c != sep && forall k :: 0 <= k < |parts| ==> c !in parts[k]
    ensures c !in JoinWith(parts, sep)
  {
    if |parts| > 1 {
      JoinFree(parts[1..], sep, c);
    }
  }

  lemma {:induction false} RowsSplit(logs: seq<AuditLog>, showTime: Ticks -> string)
    requires forall k :: 0 <= k < |logs| ==> FieldsFree(logs[k], showTime, NewLine)
    ensures SplitOn(CsvRows(logs, showTime), NewLine) == RowList(logs, showTime) + [""]
  {
    if logs != [] {
      JoinFree(CsvFields(logs[0], showTime), ',', NewLine);
      SplitAfterPiece(CsvRow(logs[0], showTime), CsvRows(logs[1..], showTime), NewLine);
      RowsSplit(logs[1..], showTime);
    }
  }

  /** A header line without a line break, then the data lines. */
  lemma {:induction false} DocumentLines(header: string, logs: seq<AuditLog>, showTime: Ticks -> string)
    requires NewLine !in header
    requires forall k :: 0 <= k < |logs| ==> FieldsFree(logs[k], showTime, NewLine)
    ensures SplitOn(header + [NewLine] + CsvRows(logs, showTime), NewLine) == [header] + RowList(logs, showTime) + [""]
  {
    SplitAfterPiece(header, CsvRows(logs, showTime), NewLine);
    RowsSplit(logs, showTime);
  }

  /** When no field holds a line break, the export is the header line and then
      exactly one line per log, in input order (and the header alone for no
      logs), each ended by the terminator. */
  lemma CsvLines(logs: seq<AuditLog>, showTime: Ticks -> string)
    requires forall k :: 0 <= k < |logs| ==> FieldsFree(logs[k], showTime, NewLine)
    ensures SplitOn(CsvText(logs, showTime), NewLine) == [CsvHeader] + RowList(logs, showTime) + [""]
    ensures logs == [] ==> CsvText(logs, showTime) == CsvHeader + [NewLine]
  {
    HeaderOneLine();
    DocumentLines(CsvHeader, logs, showTime);
  }

  /** Fields without commas come back as the six columns of their line. */
  lemma CsvColumns(l: AuditLog, showTime: Ticks -> string)
    requires FieldsFree(l, showTime, ',')
    ensures SplitOn(CsvRow(l, showTime), ',') == CsvFields(l, showTime)
  {
    SplitJoin(CsvFields(l, showTime), ',');
  }

  /** How often `c` occurs in `s`. */
  function Occurrences(s: string, c: char): nat
  {
    if s == [] then 0 else (if s[0] == c then 1 else 0) + Occurrences(s[1..], c)
  }

  lemma {:induction false} OccurrencesAppend(a: string, b: string, c: char)
    ensures Occurrences(a + b, c) == Occurrences(a, c) + Occurrences(b, c)
  {
    if a == [] {
      assert a + b == b;
    } else {
      assert (a + b)[1..] == a[1..] + b;
      OccurrencesAppend(a[1..], b, c);
    }
  }

  lemma {:induction false} OccursSomewhere(s: string, c: char)
    requires c in s
    ensures Occurrences(s, c) >= 1
  {
    if s[0] != c {
      OccursSomewhere(s[1..], c);
    }
  }

  /** A split has one piece more than the text has separators. */
  lemma {:induction false} SplitCount(s: string, c: char)
    ensures |SplitOn(s, c)| == Occurrences(s, c) + 1
  {
    if s != [] {
      SplitCount(s[1..], c);
    }
  }

  /** Joining puts one separator between each two parts. */
  lemma {:induction false} JoinCount(parts: seq<string>, c: char)
    requires |parts| >= 1
    ensures Occurrences(JoinWith(parts, c), c) >= |parts| - 1 + Occurrences(parts[0], c)
  {
    if |parts| > 1 {
      JoinCount(parts[1..], c);
      OccurrencesAppend(parts[0] + [c], JoinWith(parts[1..], c), c);
      OccurrencesAppend(parts[0], [c], c);
      assert Occurrences([c], c) == 1;
    }
  }

  /** The separators a join writes, in front of `parts[i]`. */
  lemma {:induction false} JoinCountAt(parts: seq<string>, c: char, i: nat)
    requires i < |parts|
    ensures Occurrences(JoinWith(parts, c), c) >= |parts| - 1 + Occurrences(parts[i], c)
  {
    if i == 0 {
      JoinCount(parts, c);
    } else {
      JoinCountAt(parts[1..], c, i - 1);
      OccurrencesAppend(parts[0] + [c], JoinWith(parts[1..], c), c);
      OccurrencesAppend(parts[0], [c], c);
      assert Occurrences([c], c) == 1;
    }
  }

  /** Since nothing is quoted, a comma inside a field splits the line into
      more than six columns. */
  lemma CommaAddsColumns(l: AuditLog, showTime: Ticks -> string)
    requires !FieldsFree(l, showTime, ',')
    ensures |SplitOn(CsvRow(l, showTime), ',')| > 6
  {
    var fields := CsvFields(l, showTime);
    var k :| 0 <= k < 6 && ',' in fields[k];
    OccursSomewhere(fields[k], ',');
    JoinCountAt(fields, ',', k);
    SplitCount(CsvRow(l, showTime), ',');
  }

  // ---------------------------------------------------------------------------
  // Logging
  // ---------------------------------------------------------------------------

  /** The service object: the audit-log table it appends to. */
  class AuditService {
    var logs: seq<AuditLog>

    constructor (logs: seq<AuditLog>)
      ensures this.logs == logs
    {
      this.logs := logs;
    }

    /** LogAuditAsync: a given address wins over the request's. The record
        is created with Guid.Empty, so its key is the one the key generator
        produces, `generated`, which no stored record carries. */
    method LogAudit(generated: Guid, entityName: string, entityId: string, action: string, oldValues: string,
                    newValues: string, userId: Option<string>, ipAddress: Option<string>,
                    requestAddress: Option<string>, now: Ticks)
      requires generated != 0 && GetById(logs, LogKey, generated).None?
      modifies this`logs
      ensures logs == old(logs) + [AuditLog(generated, entityName, entityId, action, oldValues, newValues,
                                            OrEmpty(userId), now,
                                            OrEmpty(if ipAddress.Some? then ipAddress else requestAddress))]
      ensures UniqueKeys(old(logs), LogKey) ==> UniqueKeys(logs, LogKey)
    {
      var address := if ipAddress.Some? then ipAddress else requestAddress;
      logs := logs + [AuditLog(generated, entityName, entityId, action, oldValues, newValues, OrEmpty(userId), now, OrEmpty(address))];
    }

    /** LogActivityAsync: no entity id and no old values; the description is
        stored as the new values, with the request's user and address. */
    method LogActivity(generated: Guid, entityName: string, action: string, description: string,
                       requestUser: Option<string>, requestAddress: Option<string>, now: Ticks)
      requires generated != 0 && GetById(logs, LogKey, generated).None?
      modifies this`logs
      ensures |logs| == |old(logs)| + 1 && logs[..|old(logs)|] == old(logs)
      ensures var rec := logs[|old(logs)|];
        rec.id == generated && rec.entityId == "" && rec.oldValues == "" && rec.newValues == description &&
        rec.entityName == entityName && rec.action == action && rec.timestamp == now &&
        rec.userId == OrEmpty(requestUser) && rec.ipAddress == OrEmpty(requestAddress)
    {
      LogAudit(generated, entityName, "", action, "", description, requestUser, None, requestAddress, now);
    }
  }
}
