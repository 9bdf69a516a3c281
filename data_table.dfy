/** The records table: a case-insensitive team search and a month selector; each row shows
    the record's progress and a badge that is "default" from 80 percent on. */
module DataTable {
  import opened Seqs
  import opened Text
  import opened Schema
  import opened Metrics

  /** The month selector's value that keeps every month; the others are "0" to "11". */
  const AllMonths: string := "all"

  /** The lowercased team name contains the lowercased search text. */
  predicate TeamMatches(r: Record, search: string) {
    Includes(Lower(r.team), Lower(search))
  }

  /** The selector is "all", or the record's 0-based month written in decimal. */
  predicate MonthMatches(r: Record, selectedMonth: string) {
    selectedMonth == AllMonths || IntToString(r.date.month0) == selectedMonth
  }

  function KeepPred(search: string, selectedMonth: string): Record -> bool {
    (r: Record) => TeamMatches(r, search) && MonthMatches(r, selectedMonth)
  }

  /** `filteredRecords`: the records passing both tests, in the received order. */
  function FilteredRecords(records: seq<Record>, search: string, selectedMonth: string): (rs: seq<Record>)
    ensures forall r :: r in rs <==> r in records && TeamMatches(r, search) && MonthMatches(r, selectedMonth)
    ensures IsSubsequence(rs, records)
  {
    FilterIsSubsequence(records, KeepPred(search, selectedMonth));
    Filter(records, KeepPred(search, selectedMonth))
  }

  /** The empty search matches every team. */
  lemma EmptySearchMatches(r: Record)
    ensures TeamMatches(r, "")
  {
    assert OccursAt(Lower(r.team), Lower(""), 0);
  }

  /** The initial state of the page, an empty search with "all", keeps every record. */
  lemma InitialFilterKeepsAll(records: seq<Record>)
    ensures FilteredRecords(records, "", AllMonths) == records
  {
    forall r ensures KeepPred("", AllMonths)(r) {
      EmptySearchMatches(r);
    }
    FilterAll(records, KeepPred("", AllMonths));
  }

  /** Selecting month `m` keeps exactly the records of that month, of any year. */
  lemma MonthSelection(r: Record, m: Month0)
    ensures MonthMatches(r, IntToString(m)) <==> r.date.month0 == m
  {
    if IntToString(r.date.month0) == IntToString(m) {
      NatToStringInjective(r.date.month0, m);
    }
  }

  /** Search text is compared without regard to ASCII case. */
  lemma SearchIgnoresCase(r: Record, search: string)
    ensures TeamMatches(r, Lower(search)) == TeamMatches(r, search)
  {
    LowerIdempotent(search);
  }

  /** A row's progress: Ship OK as a percentage of a positive target, otherwise 0. */
  function RowProgress(r: Record): (p: real)
    ensures r.target > 0.0 ==> p * r.target == r.newDepositShipOk * 100.0
    ensures r.target <= 0.0 ==> p == 0.0
  {
    Percent(r.newDepositShipOk, r.target)
  }

  datatype BadgeVariant = Default | Destructive

  function Badge(progress: real): BadgeVariant {
    if progress >= 80.0 then Default else Destructive
  }

  /** A row's badge is "default" exactly when the target is positive and at least
      80 percent of it shipped. */
  lemma BadgeIff(r: Record)
    ensures Badge(RowProgress(r)) == Default <==>
      r.target > 0.0 && r.newDepositShipOk * 100.0 >= 80.0 * r.target
  {
    if r.target > 0.0 {
      PercentAtLeast(r.newDepositShipOk, r.target, 80.0);
    }
  }
}
