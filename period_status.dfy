// Whether a date falls in a closed fiscal period
// (Areas/Accounting/Services/PeriodStatusService.cs). Only IsClosed is
// consulted: a locked period that is not closed counts as open.

module PeriodStatus {
  import opened Wrappers
  import opened Ledger
  import opened Repository

  /** The period covers the date, both ends included. */
  predicate Contains(p: FiscalPeriod, date: Ticks) { p.startDate <= date && p.endDate >= date }

  function Covering(date: Ticks): FiscalPeriod -> bool
  {
    (p: FiscalPeriod) => Contains(p, date)
  }

  /** Period i is the first that covers the date. */
  predicate FirstCover(periods: seq<FiscalPeriod>, date: Ticks, i: nat)
    requires i < |periods|
  {
    Contains(periods[i], date) && forall k :: 0 <= k < i ==> !Contains(periods[k], date)
  }

  /** IsPeriodClosedAsync: a date no period covers counts as closed; otherwise
      the answer is the IsClosed flag of the first covering period. */
  function IsPeriodClosed(periods: seq<FiscalPeriod>, date: Ticks): (r: bool)
    ensures (forall k :: 0 <= k < |periods| ==> !Contains(periods[k], date)) ==> r
    ensures forall i :: 0 <= i < |periods| && FirstCover(periods, date, i) ==> r == periods[i].isClosed
  {
    FirstIsEarliest(periods, Covering(date));
    var period := First(periods, Covering(date));
    if period.None? then true else period.value.isClosed
  }

  /** No date lies in two periods. */
  predicate Disjoint(periods: seq<FiscalPeriod>)
  {
    forall i, j :: 0 <= i < |periods| && 0 <= j < |periods| && i != j ==>
      periods[i].endDate < periods[j].startDate || periods[j].endDate < periods[i].startDate
  }

  /** When periods do not overlap, the answer is the flag of whichever period
      covers the date, not only of the first. */
  lemma ClosedFlagOfCover(periods: seq<FiscalPeriod>, date: Ticks, i: nat)
    requires Disjoint(periods) && i < |periods| && Contains(periods[i], date)
    ensures IsPeriodClosed(periods, date) == periods[i].isClosed
  {
    forall k | 0 <= k < i ensures !Contains(periods[k], date) {
      assert k != i;
    }
  }

  /** Period flags other than IsClosed play no part: locking or unlocking
      periods never changes the answer. */
  lemma LockIgnored(periods: seq<FiscalPeriod>, locked: seq<FiscalPeriod>, date: Ticks)
    requires |locked| == |periods|
    requires forall k :: 0 <= k < |periods| ==> locked[k] == periods[k].(isLocked := locked[k].isLocked)
    ensures IsPeriodClosed(locked, date) == IsPeriodClosed(periods, date)
  {
    if exists i :: 0 <= i < |periods| && Contains(periods[i], date) {
      var i := Earliest(periods, date);
      assert forall k :: 0 <= k < i ==> !Contains(locked[k], date);
      assert Contains(locked[i], date);
    } else {
      assert forall k :: 0 <= k < |locked| ==> !Contains(locked[k], date) by {
        forall k | 0 <= k < |locked| ensures !Contains(locked[k], date) {
          assert !Contains(periods[k], date);
        }
      }
    }
  }

  /** The index of the first period that covers the date. */
  lemma Earliest(periods: seq<FiscalPeriod>, date: Ticks) returns (i: nat)
    requires exists i :: 0 <= i < |periods| && Contains(periods[i], date)
    ensures i < |periods| && Contains(periods[i], date)
    ensures forall k :: 0 <= k < i ==> !Contains(periods[k], date)
  {
    var j :| 0 <= j < |periods| && Contains(periods[j], date);
    i := 0;
    while !Contains(periods[i], date)
      invariant i <= j
      invariant forall k :: 0 <= k < i ==> !Contains(periods[k], date)
      decreases j - i
    {
      i := i + 1;
    }
  }
}
