/** The record store: list with optional conjunctive filters, newest date first; get by id;
    create with a fresh serial id; partial update by id; delete by id. The Postgres table is
    modelled as an in-memory sequence of rows. */
module Storage {
  import opened Wrappers
  import opened Seqs
  import opened Schema

  /** The list filters. A date filter a request leaves out (or sends as "") is None; the team
      filter is the raw string, whose empty value imposes no condition either. */
  datatype ListFilters = ListFilters(startDate: Option<Date>, endDate: Option<Date>, team: Option<string>)

  /** A filter value that counts: JavaScript's truthiness test on the string. */
  predicate GivenText(s: Option<string>) {
    s.Some? && s.value != ""
  }

  /** The reference meaning of the filters: every given condition holds. */
  predicate Matches(filters: Option<ListFilters>, r: Record) {
    filters.None? ||
    ((filters.value.startDate.None? || DateKey(filters.value.startDate.value) <= DateKey(r.date)) &&
     (filters.value.endDate.None? || DateKey(r.date) <= DateKey(filters.value.endDate.value)) &&
     (!GivenText(filters.value.team) || r.team == filters.value.team.value))
  }

  function MatchPred(filters: Option<ListFilters>): Record -> bool {
    (r: Record) => Matches(filters, r)
  }

  /** The `where` conditions the query collects. */
  datatype Condition = DateAtLeast(d: Date) | DateAtMost(d: Date) | TeamIs(team: string)

  predicate Holds(c: Condition, r: Record) {
    match c
    case DateAtLeast(d) => DateKey(d) <= DateKey(r.date)
    case DateAtMost(d) => DateKey(r.date) <= DateKey(d)
    case TeamIs(t) => r.team == t
  }

  /** `and(...conditions)`; no condition at all means no `where`. */
  predicate AllHold(conds: seq<Condition>, r: Record) {
    forall i :: 0 <= i < |conds| ==> Holds(conds[i], r)
  }

  lemma AllHoldSnoc(conds: seq<Condition>, c: Condition)
    ensures forall r :: AllHold(conds + [c], r) <==> AllHold(conds, r) && Holds(c, r)
  {
    forall r ensures AllHold(conds + [c], r) <==> AllHold(conds, r) && Holds(c, r) {
      if AllHold(conds + [c], r) {
        assert forall i :: 0 <= i < |conds| ==> (conds + [c])[i] == conds[i];
        assert (conds + [c])[|conds|] == c;
      }
    }
  }

  /** The conditions for the given filters, pushed in the order start, end, team. */
  method BuildConditions(filters: Option<ListFilters>) returns (conds: seq<Condition>)
    ensures forall r :: AllHold(conds, r) <==> Matches(filters, r)
    ensures |conds| <= 3
    ensures conds == [] <==> (filters.None? ||
      (filters.value.startDate.None? && filters.value.endDate.None? && !GivenText(filters.value.team)))
  {
    conds := [];
    if filters.Some? {
      var f := filters.value;
      if f.startDate.Some? {
        AllHoldSnoc(conds, DateAtLeast(f.startDate.value));
        conds := conds + [DateAtLeast(f.startDate.value)];
      }
      assert forall r :: AllHold(conds, r) <==>
        (f.startDate.None? || DateKey(f.startDate.value) <= DateKey(r.date));
      ghost var afterStart := conds;
      if f.endDate.Some? {
        AllHoldSnoc(conds, DateAtMost(f.endDate.value));
        conds := conds + [DateAtMost(f.endDate.value)];
      }
      assert forall r :: AllHold(conds, r) <==> (AllHold(afterStart, r) &&
        (f.endDate.None? || DateKey(r.date) <= DateKey(f.endDate.value)));
      ghost var afterEnd := conds;
      if GivenText(f.team) {
        AllHoldSnoc(conds, TeamIs(f.team.value));
        conds := conds + [TeamIs(f.team.value)];
      }
      assert forall r :: AllHold(conds, r) <==> (AllHold(afterEnd, r) &&
        (!GivenText(f.team) || r.team == f.team.value));
    }
  }

  /** A filter given as the empty team string is the same as no team filter. */
  lemma EmptyTeamIsNoFilter(start: Option<Date>, end: Option<Date>, r: Record)
    ensures Matches(Some(ListFilters(start, end, Some(""))), r) == Matches(Some(ListFilters(start, end, None)), r)
  {
  }

  /** The row key for `orderBy(desc(date))`: ascending in this key is newest first. */
  function NewestFirst(): Record -> int {
    (r: Record) => -DateKey(r.date)
  }

  predicate NewestFirstOrder(s: seq<Record>) {
    forall i, j :: 0 <= i < j < |s| ==> DateKey(s[i].date) >= DateKey(s[j].date)
  }

  predicate UniqueIds(s: seq<Record>) {
    forall i, j :: 0 <= i < j < |s| ==> s[i].id != s[j].id
  }

  /** Keeping some rows keeps the ids unique. */
  lemma {:induction false} FilterUniqueIds(s: seq<Record>, p: Record -> bool)
    requires UniqueIds(s)
    ensures UniqueIds(Filter(s, p))
    decreases |s|
  {
    if s != [] {
      FilterUniqueIds(s[1..], p);
      var rest := Filter(s[1..], p);
      if p(s[0]) {
        forall y | y in rest ensures y.id != s[0].id {
          var k :| 0 <= k < |s[1..]| && s[1..][k] == y;
          assert s[k + 1] == y;
        }
        var r := [s[0]] + rest;
        forall i, j | 0 <= i < j < |r| ensures r[i].id != r[j].id {
          if i > 0 {
            assert r[i] == rest[i - 1] && r[j] == rest[j - 1];
          } else {
            assert r[j] in rest;
          }
        }
      }
    }
  }

  function NotId(id: int): Record -> bool {
    (r: Record) => r.id != id
  }

  /** The rows after `update ... where id = id`: the patch on the matching rows, the others as they were. */
  function PatchRows(rows: seq<Record>, id: int, p: Patch): (out: seq<Record>)
    ensures |out| == |rows|
    ensures forall i :: 0 <= i < |rows| ==>
      out[i] == if rows[i].id == id then ApplyPatch(rows[i], p) else rows[i]
    decreases |rows|
  {
    if rows == [] then []
    else PatchRows(rows[..|rows| - 1], id, p) + [if rows[|rows| - 1].id == id then ApplyPatch(rows[|rows| - 1], p) else rows[|rows| - 1]]
  }

  /** The table. Ids come from a serial counter: every stored id is below `nextId`. */
  class KpiTable {
    var rows: seq<Record>
    var nextId: int

    ghost predicate Valid()
      reads this
    {
      nextId >= 1 && UniqueIds(rows) && forall i :: 0 <= i < |rows| ==> 1 <= rows[i].id < nextId
    }

    constructor ()
      ensures Valid() && rows == [] && nextId == 1
    {
      rows := [];
      nextId := 1;
    }

    /** `getKpiRecords`: the matching rows, newest first. */
    method List(filters: Option<ListFilters>) returns (result: seq<Record>)
      ensures multiset(result) == multiset(Filter(rows, MatchPred(filters)))
      ensures forall r :: r in result <==> r in rows && Matches(filters, r)
      ensures NewestFirstOrder(result)
    {
      var matching := Where(filters);
      result := SortByKey(matching, NewestFirst());
    }

    /** The `where` clause: the rows meeting every collected condition, in table order. */
    method Where(filters: Option<ListFilters>) returns (matching: seq<Record>)
      ensures matching == Filter(rows, MatchPred(filters))
    {
      var conds := BuildConditions(filters);
      matching := [];
      var i := 0;
      while i < |rows|
        invariant 0 <= i <= |rows|
        invariant matching == Filter(rows[..i], MatchPred(filters))
      {
        FilterAppend(rows[..i], [rows[i]], MatchPred(filters));
        assert rows[..i + 1] == rows[..i] + [rows[i]];
        if AllHold(conds, rows[i]) {
          matching := matching + [rows[i]];
        }
        i := i + 1;
      }
      assert rows[..i] == rows;
    }

    /** `getKpiRecord`: the row with that id, if any. */
    method Get(id: int) returns (r: Option<Record>)
      requires Valid()
      ensures r.Some? ==> r.value in rows && r.value.id == id
      ensures r.None? <==> forall x :: x in rows ==> x.id != id
      ensures forall x :: x in rows && x.id == id ==> r == Some(x)
    {
      var i := 0;
      while i < |rows|
        invariant 0 <= i <= |rows|
        invariant forall k :: 0 <= k < i ==> rows[k].id != id
      {
        if rows[i].id == id {
          r := Some(rows[i]);
          return;
        }
        i := i + 1;
      }
      r := None;
    }

    /** `createKpiRecord`: stores the row under the next serial id, stamped `now`. */
    method Create(row: InsertRow, now: int) returns (rec: Record)
      requires Valid()
      modifies this
      ensures Valid()
      ensures rec == NewRecord(old(nextId), row, now)
      ensures rows == old(rows) + [rec] && nextId == old(nextId) + 1
      ensures forall x :: x in old(rows) ==> x.id != rec.id
    {
      rec := NewRecord(nextId, row, now);
      rows := rows + [rec];
      nextId := nextId + 1;
    }

    /** `updateKpiRecord`: the patch on the row with that id; nothing when there is none. */
    method Update(id: int, p: Patch) returns (updated: Option<Record>)
      requires Valid()
      modifies this
      ensures Valid()
      ensures rows == PatchRows(old(rows), id, p) && nextId == old(nextId)
      ensures updated.None? <==> forall x :: x in old(rows) ==> x.id != id
      ensures updated.Some? ==> exists x :: x in old(rows) && x.id == id && updated.value == ApplyPatch(x, p)
    {
      var newRows: seq<Record> := [];
      updated := None;
      var i := 0;
      while i < |rows|
        invariant 0 <= i <= |rows|
        invariant newRows == PatchRows(rows[..i], id, p)
        invariant updated.None? <==> forall k :: 0 <= k < i ==> rows[k].id != id
        invariant updated.Some? ==> exists k :: 0 <= k < i && rows[k].id == id && updated.value == ApplyPatch(rows[k], p)
      {
        assert rows[..i + 1][..i] == rows[..i];
        if rows[i].id == id {
          var u := ApplyPatch(rows[i], p);
          newRows := newRows + [u];
          if updated.None? {
            updated := Some(u);
          }
        } else {
          newRows := newRows + [rows[i]];
        }
        i := i + 1;
      }
      assert rows[..i] == rows;
      rows := newRows;
    }

    /** `deleteKpiRecord`: removes the row with that id; with no such row nothing changes. */
    method Delete(id: int)
      requires Valid()
      modifies this
      ensures Valid()
      ensures rows == Filter(old(rows), NotId(id)) && nextId == old(nextId)
      ensures (forall x :: x in old(rows) ==> x.id != id) ==> rows == old(rows)
    {
      FilterUniqueIds(rows, NotId(id));
      if forall x :: x in rows ==> x.id != id {
        FilterAll(rows, NotId(id));
      }
      assert forall x :: x in rows ==> 1 <= x.id < nextId;
      rows := Filter(rows, NotId(id));
      assert forall i :: 0 <= i < |rows| ==> rows[i] in rows;
    }
  }
}
