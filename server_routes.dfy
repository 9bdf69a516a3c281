/** The HTTP handlers over the record table: list, create (201 or 400), update (200, 400 or
    404), delete (always 204) and the stats totals; and the seeding of an empty table with
    three months of records for each of the eight teams. */
module ServerRoutes {
  import opened Wrappers
  import opened Seqs
  import opened Schema
  import opened Storage
  import ApiRoutes
  import KpiCharts
  import Dashboard

  // --- Stats ---

  /** The stats body. `teams` is always empty. */
  datatype Stats = Stats(totalTarget: real, totalShipOk: real, teams: seq<string>)

  /** What one record adds to the stats' Ship OK: new deposits, strategic and retention. */
  function CombinedShipOkOf(r: Record): real {
    r.newDepositShipOk + r.strategic + r.retention
  }

  function ShipOkAndStrategicOf(r: Record): real {
    r.newDepositShipOk + r.strategic
  }

  /** The two `reduce` folds over the records, starting from 0. */
  function StatsBody(records: seq<Record>): (st: Stats)
    ensures st.teams == []
    ensures records == [] ==> st.totalTarget == 0.0 && st.totalShipOk == 0.0
  {
    Stats(Sum(records, TargetOf), Sum(records, CombinedShipOkOf), [])
  }

  /** The stats' Ship OK is the sum of the three breakdown categories of the same records. */
  lemma StatsShipOkIsBreakdownTotal(records: seq<Record>)
    ensures StatsBody(records).totalShipOk == KpiCharts.TotalValue(KpiCharts.BreakdownTotals(records))
  {
    SumAdd(records, ShipOkOf, StrategicOf, ShipOkAndStrategicOf);
    SumAdd(records, ShipOkAndStrategicOf, RetentionOf, CombinedShipOkOf);
  }

  /** The server's Ship OK is never below the dashboard's, which counts new deposits only;
      over non-negative records they agree exactly when strategic and retention sum to 0. */
  lemma StatsShipOkVersusDashboard(records: seq<Record>)
    requires forall r :: r in records ==> NonNegative(r)
    ensures StatsBody(records).totalShipOk >= Dashboard.StatsOf(records).totalShipOk
    ensures StatsBody(records).totalShipOk == Dashboard.StatsOf(records).totalShipOk <==>
      (Sum(records, StrategicOf) == 0.0 && Sum(records, RetentionOf) == 0.0)
  {
    StatsShipOkIsBreakdownTotal(records);
    assert forall i :: 0 <= i < |records| ==> records[i] in records;
    SumNonNegative(records, StrategicOf);
    SumNonNegative(records, RetentionOf);
  }

  /** The stats do not depend on the order in which the records are listed. */
  lemma StatsOrderIndependent(a: seq<Record>, b: seq<Record>)
    requires multiset(a) == multiset(b)
    ensures StatsBody(a) == StatsBody(b)
  {
    SumPermutation(a, b, TargetOf);
    SumPermutation(a, b, CombinedShipOkOf);
  }

  // --- Responses ---

  datatype Body =
    | RecordJson(record: Record)
    | RecordsJson(records: seq<Record>)
    | StatsJson(stats: Stats)
    | ErrorJson(error: ApiRoutes.ApiError)
    | NoContent

  datatype Response = Response(status: int, body: Body)

  const RecordNotFound: string := "Record not found"

  /** A 400 with the first issue's message and its path joined by "." (a one-element path here). */
  function ValidationFailure(issue: Issue): Response {
    Response(400, ErrorJson(ApiRoutes.ValidationError(issue.message, Some(issue.field))))
  }

  /** GET /api/kpi: the three query values are passed as a filter object, always present. */
  method HandleList(table: KpiTable, startDate: Option<Date>, endDate: Option<Date>, team: Option<string>)
    returns (resp: Response)
    ensures resp.status == 200 && resp.status in ApiRoutes.ListRoute.responses && resp.body.RecordsJson?
    ensures forall r :: r in resp.body.records <==>
      r in table.rows && Matches(Some(ListFilters(startDate, endDate, team)), r)
    ensures multiset(resp.body.records) ==
      multiset(Filter(table.rows, MatchPred(Some(ListFilters(startDate, endDate, team)))))
    ensures NewestFirstOrder(resp.body.records)
  {
    var records := table.List(Some(ListFilters(startDate, endDate, team)));
    resp := Response(200, RecordsJson(records));
  }

  /** POST /api/kpi: 400 with the first validation issue, or 201 with the stored record. */
  method HandleCreate(table: KpiTable, raw: RawInput, now: int) returns (resp: Response)
    requires table.Valid()
    modifies table
    ensures table.Valid()
    ensures resp.status in ApiRoutes.CreateRoute.responses
    ensures ValidateInsert(raw).Failure? ==>
      resp == ValidationFailure(ValidateInsert(raw).error) &&
      table.rows == old(table.rows) && table.nextId == old(table.nextId)
    ensures ValidateInsert(raw).Success? ==>
      resp == Response(201, RecordJson(NewRecord(old(table.nextId), ValidateInsert(raw).value, now))) &&
      table.rows == old(table.rows) + [resp.body.record] && table.nextId == old(table.nextId) + 1
  {
    var input := ValidateInsert(raw);
    match input
    case Failure(issue) =>
      resp := ValidationFailure(issue);
    case Success(row) =>
      var rec := table.Create(row, now);
      resp := Response(201, RecordJson(rec));
  }

  /** PUT /api/kpi/:id: 400 with the first validation issue; otherwise the patch is applied and
      the answer is 404 "Record not found" when no row has that id, else 200 with the new row. */
  method HandleUpdate(table: KpiTable, id: int, raw: RawInput) returns (resp: Response)
    requires table.Valid()
    modifies table
    ensures table.Valid()
    ensures ValidateUpdate(raw).Failure? ==>
      resp == ValidationFailure(ValidateUpdate(raw).error) &&
      table.rows == old(table.rows) && table.nextId == old(table.nextId)
    ensures ValidateUpdate(raw).Success? ==>
      resp.status in ApiRoutes.UpdateRoute.responses &&
      table.rows == PatchRows(old(table.rows), id, ValidateUpdate(raw).value) &&
      table.nextId == old(table.nextId)
    ensures ValidateUpdate(raw).Success? ==>
      (resp.status == 404 <==> forall x :: x in old(table.rows) ==> x.id != id)
    ensures resp.status == 404 ==> resp.body == ErrorJson(ApiRoutes.NotFoundError(RecordNotFound))
    ensures resp.status == 200 ==> (resp.body.RecordJson? && ValidateUpdate(raw).Success? &&
      exists x :: x in old(table.rows) && x.id == id &&
        resp.body.record == ApplyPatch(x, ValidateUpdate(raw).value))
  {
    var input := ValidateUpdate(raw);
    match input
    case Failure(issue) =>
      resp := ValidationFailure(issue);
    case Success(patch) =>
      var updated := table.Update(id, patch);
      if updated.None? {
        resp := Response(404, ErrorJson(ApiRoutes.NotFoundError(RecordNotFound)));
      } else {
        resp := Response(200, RecordJson(updated.value));
      }
  }

  /** DELETE /api/kpi/:id: the row goes if it is there; the answer is 204 either way. */
  method HandleDelete(table: KpiTable, id: int) returns (resp: Response)
    requires table.Valid()
    modifies table
    ensures table.Valid()
    ensures resp == Response(204, NoContent) && resp.status in ApiRoutes.DeleteRoute.responses
    ensures table.rows == Filter(old(table.rows), NotId(id)) && table.nextId == old(table.nextId)
  {
    table.Delete(id);
    resp := Response(204, NoContent);
  }

  /** GET /api/kpi/stats: the totals over every record, whatever year or month is asked for. */
  method HandleStats(table: KpiTable) returns (resp: Response)
    ensures resp == Response(200, StatsJson(StatsBody(table.rows)))
    ensures resp.status in ApiRoutes.StatsRoute.responses
    ensures resp.body.stats.totalTarget == Sum(table.rows, TargetOf)
    ensures resp.body.stats.totalShipOk == KpiCharts.TotalValue(KpiCharts.BreakdownTotals(table.rows))
    ensures resp.body.stats.teams == []
  {
    var records := table.List(None);
    FilterAll(table.rows, MatchPred(None));
    StatsOrderIndependent(records, table.rows);
    StatsShipOkIsBreakdownTotal(table.rows);
    resp := Response(200, StatsJson(StatsBody(records)));
  }

  // --- Seed dates ---

  predicate IsLeapYear(y: int) {
    (y % 4 == 0 && y % 100 != 0) || y % 400 == 0
  }

  /** Days in a month of the proleptic Gregorian calendar. */
  function DaysIn(y: int, m: Month0): (n: int)
    ensures 28 <= n <= 31
  {
    if m == 1 then (if IsLeapYear(y) then 29 else 28)
    else if m == 3 || m == 5 || m == 8 || m == 10 then 30
    else 31
  }

  /** Months counted from year 0, so that consecutive months differ by one. */
  function MonthIndex(d: Date): int {
    d.year * 12 + d.month0
  }

  /** `setMonth(getMonth() - i)` as written: the day of month is kept, and a day the earlier
      month does not have spills over into the month after it. */
  function MonthsBackAsWritten(today: Date, i: nat): Date {
    var idx := MonthIndex(today) - i;
    var n := DaysIn(idx / 12, idx % 12);
    if today.day <= n then Date(idx / 12, idx % 12, today.day)
    else Date((idx + 1) / 12, (idx + 1) % 12, today.day - n)
  }

  /** The date `i` months back, with the day clamped to the end of that month. */
  function MonthsBack(today: Date, i: nat): (d: Date)
    ensures d.day <= today.day && d.day <= DaysIn(d.year, d.month0)
  {
    var idx := MonthIndex(today) - i;
    var n := DaysIn(idx / 12, idx % 12);
    Date(idx / 12, idx % 12, if today.day <= n then today.day else n)
  }

  /** The clamped date lies exactly `i` months back, keeping the day when that month has it. */
  lemma MonthsBackMonth(today: Date, i: nat)
    ensures MonthIndex(MonthsBack(today, i)) == MonthIndex(today) - i
    ensures today.day <= DaysIn(MonthsBack(today, i).year, MonthsBack(today, i).month0) ==>
      MonthsBack(today, i).day == today.day
  {
  }

  /** So the seed dates of one team fall in three different months. */
  lemma MonthsBackDistinct(today: Date, i: nat, j: nat)
    requires i != j
    ensures MonthIndex(MonthsBack(today, i)) != MonthIndex(MonthsBack(today, j))
  {
    MonthsBackMonth(today, i);
    MonthsBackMonth(today, j);
  }

  /** On days 1 to 28 the code as written and the clamped date agree. */
  lemma AsWrittenAgreesOnEarlyDays(today: Date, i: nat)
    requires today.day <= 28
    ensures MonthsBackAsWritten(today, i) == MonthsBack(today, i)
  {
  }

  /** Later in the month, when the earlier month is shorter, the code as written lands one
      month after the intended one: for `i` = 1 that is the current month again. */
  lemma AsWrittenSpillsOver(today: Date, i: nat)
    requires today.day > DaysIn((MonthIndex(today) - i) / 12, (MonthIndex(today) - i) % 12)
    ensures MonthIndex(MonthsBackAsWritten(today, i)) == MonthIndex(today) - i + 1
  {
  }

  /** On 31 March 2024 the dates for `i` = 0 and `i` = 1 are both in March. */
  lemma AsWrittenMarch31()
    ensures MonthsBackAsWritten(Date(2024, 2, 31), 1) == Date(2024, 2, 2)
    ensures MonthIndex(MonthsBackAsWritten(Date(2024, 2, 31), 0)) ==
            MonthIndex(MonthsBackAsWritten(Date(2024, 2, 31), 1))
  {
    assert IsLeapYear(2024);
    assert DaysIn(2024, 1) == 29;
  }

  // --- Seeding ---

  const SeedTeams: seq<string> :=
    ["OCENIA", "CYPRUS", "KENYA", "MOZAMBIQUE", "MALAWI", "JAMAICA", "BAHAMAS/GUYANA", "TRUCKS"]
  const SeedMonths: nat := 3
  const SeedNotes: string := "Auto-generated seed data"

  /** The seven `Math.random` results one seed record takes, in the order the code draws them. */
  datatype SeedDraws = SeedDraws(target: real, inquiries: real, register: real, deposit: real,
                                 shipOk: real, strategic: real, retention: real)

  predicate InUnit(x: real) {
    0.0 <= x < 1.0
  }

  /** What `Math.random` can return: every draw in [0, 1). */
  predicate IsRandom(d: SeedDraws) {
    InUnit(d.target) && InUnit(d.inquiries) && InUnit(d.register) && InUnit(d.deposit) &&
    InUnit(d.shipOk) && InUnit(d.strategic) && InUnit(d.retention)
  }

  /** `Math.floor(x * n)`. */
  function FloorScaled(x: real, n: nat): int {
    (x * n as real).Floor
  }

  /** For a random `x` it is an integer in 0 .. n - 1. */
  lemma FloorScaledRange(x: real, n: nat)
    requires InUnit(x) && n > 0
    ensures 0 <= FloorScaled(x, n) < n
  {
    assert x * n as real < n as real by {
      assert (1.0 - x) * n as real > 0.0;
    }
  }

  /** The insert for one seed record. `ytdTarget` and `upsell` are not supplied. */
  function SeedRow(d: Date, team: string, r: SeedDraws): InsertRow {
    InsertRow(d, team, (FloorScaled(r.target, 40) + 20) as real, None,
      Some((FloorScaled(r.inquiries, 100) + 50) as real), Some((FloorScaled(r.register, 50) + 20) as real),
      Some((FloorScaled(r.deposit, 30) + 10) as real), Some((FloorScaled(r.shipOk, 15) + 5) as real),
      Some(FloorScaled(r.strategic, 10) as real), Some(FloorScaled(r.retention, 5) as real), None, Some(SeedNotes))
  }

  /** The ranges the seed values keep to. */
  predicate SeedShaped(r: Record) {
    20.0 <= r.target < 60.0 && r.ytdTarget == 0.0 && 50.0 <= r.qualifiedInquiries < 150.0 &&
    20.0 <= r.newRegister < 70.0 && 10.0 <= r.newDeposit < 40.0 &&
    5.0 <= r.newDepositShipOk < 20.0 && 0.0 <= r.strategic < 10.0 && 0.0 <= r.retention < 5.0 &&
    r.upsell == 0.0 && r.notes == Some(SeedNotes)
  }

  /** Every seeded record is within the seed ranges, so in particular non-negative. */
  lemma SeedRowShaped(id: int, d: Date, team: string, r: SeedDraws, now: int)
    requires IsRandom(r)
    ensures SeedShaped(NewRecord(id, SeedRow(d, team, r), now))
    ensures NonNegative(NewRecord(id, SeedRow(d, team, r), now))
    ensures NewRecord(id, SeedRow(d, team, r), now).team == team
    ensures NewRecord(id, SeedRow(d, team, r), now).date == d
  {
    FloorScaledRange(r.target, 40);
    FloorScaledRange(r.inquiries, 100);
    FloorScaledRange(r.register, 50);
    FloorScaledRange(r.deposit, 30);
    FloorScaledRange(r.shipOk, 15);
    FloorScaledRange(r.strategic, 10);
    FloorScaledRange(r.retention, 5);
  }

  /** The number of seed records: one per team and month. */
  function SeedCount(): nat {
    |SeedTeams| * SeedMonths
  }

  /** The position of team `t`'s `i`-th record. */
  lemma SeedPosition(t: nat, i: nat)
    requires t < |SeedTeams| && i < SeedMonths
    ensures t * SeedMonths + i < SeedCount()
    ensures (t * SeedMonths + i) / SeedMonths == t && (t * SeedMonths + i) % SeedMonths == i
  {
  }

  /** The `k`-th seeded record: team `k / 3`, `k % 3` months back, the `k`-th draws. */
  function SeedRecord(firstId: int, today: Date, now: int, draws: seq<SeedDraws>, k: nat): Record
    requires k < SeedCount() && |draws| >= SeedCount()
  {
    NewRecord(firstId + k, SeedRow(MonthsBack(today, k % SeedMonths), SeedTeams[k / SeedMonths], draws[k]), now)
  }

  /** Team `t`'s `i`-th record is made from that team, `i` months back. */
  lemma SeedRecordAt(firstId: int, today: Date, now: int, draws: seq<SeedDraws>, t: nat, i: nat)
    requires t < |SeedTeams| && i < SeedMonths && |draws| >= SeedCount()
    ensures t * SeedMonths + i < SeedCount()
    ensures SeedRecord(firstId, today, now, draws, t * SeedMonths + i) ==
      NewRecord(firstId + t * SeedMonths + i,
        SeedRow(MonthsBack(today, i), SeedTeams[t], draws[t * SeedMonths + i]), now)
  {
    SeedPosition(t, i);
  }

  /** The table holds exactly the first `n` seed records. */
  predicate HoldsSeedPrefix(rows: seq<Record>, firstId: int, today: Date, now: int, draws: seq<SeedDraws>, n: nat)
    requires n <= SeedCount() && |draws| >= SeedCount()
  {
    |rows| == n && forall k :: 0 <= k < n ==> rows[k] == SeedRecord(firstId, today, now, draws, k)
  }

  /** A seeded table has 8 × 3 = 24 records; team `t`'s `i`-th lies `i` months back, and with
      random draws every one is within the seed ranges. */
  lemma SeedCoversTeamsAndMonths(rows: seq<Record>, firstId: int, today: Date, now: int, draws: seq<SeedDraws>, t: nat, i: nat)
    requires |draws| >= SeedCount() && HoldsSeedPrefix(rows, firstId, today, now, draws, SeedCount())
    requires t < |SeedTeams| && i < SeedMonths
    requires forall k :: 0 <= k < |draws| ==> IsRandom(draws[k])
    ensures |rows| == 24 && t * SeedMonths + i < |rows|
    ensures var r := rows[t * SeedMonths + i];
      r.team == SeedTeams[t] && MonthIndex(r.date) == MonthIndex(today) - i && SeedShaped(r) &&
      r.id == firstId + t * SeedMonths + i
  {
    SeedRecordAt(firstId, today, now, draws, t, i);
    var k := t * SeedMonths + i;
    SeedRowShaped(firstId + k, MonthsBack(today, i), SeedTeams[t], draws[k], now);
    MonthsBackMonth(today, i);
  }

  /** The inner loop: the three records of team `t`, appended after those of the teams before it. */
  method SeedTeam(table: KpiTable, firstId: int, t: nat, today: Date, now: int, draws: seq<SeedDraws>)
    requires t < |SeedTeams| && |draws| >= SeedCount()
    requires table.Valid()
    requires HoldsSeedPrefix(table.rows, firstId, today, now, draws, t * SeedMonths)
    requires table.nextId == firstId + t * SeedMonths
    modifies table
    ensures table.Valid()
    ensures HoldsSeedPrefix(table.rows, firstId, today, now, draws, (t + 1) * SeedMonths)
    ensures table.nextId == firstId + (t + 1) * SeedMonths
  {
    var i := 0;
    assert t * SeedMonths + i == t * SeedMonths;
    while i < SeedMonths
      invariant 0 <= i <= SeedMonths
      invariant table.Valid()
      invariant HoldsSeedPrefix(table.rows, firstId, today, now, draws, t * SeedMonths + i)
      invariant table.nextId == firstId + t * SeedMonths + i
    {
      SeedRecordAt(firstId, today, now, draws, t, i);
      var rec := table.Create(SeedRow(MonthsBack(today, i), SeedTeams[t], draws[t * SeedMonths + i]), now);
      i := i + 1;
    }
    assert t * SeedMonths + SeedMonths == (t + 1) * SeedMonths;
  }

  /** `seedDatabase`: when the table lists no record, three months of records for each team are
      created in order, team by team; a table with records is left alone. */
  method SeedDatabase(table: KpiTable, today: Date, now: int, draws: seq<SeedDraws>)
    requires table.Valid()
    requires |draws| >= SeedCount()
    modifies table
    ensures table.Valid()
    ensures old(table.rows) != [] ==> table.rows == old(table.rows) && table.nextId == old(table.nextId)
    ensures old(table.rows) == [] ==>
      HoldsSeedPrefix(table.rows, old(table.nextId), today, now, draws, SeedCount()) &&
      table.nextId == old(table.nextId) + SeedCount()
  {
    var existing := table.List(None);
    FilterAll(table.rows, MatchPred(None));
    assert |multiset(existing)| == |multiset(table.rows)|;
    if |existing| == 0 {
      var firstId := table.nextId;
      var t := 0;
      while t < |SeedTeams|
        invariant 0 <= t <= |SeedTeams|
        invariant table.Valid()
        invariant HoldsSeedPrefix(table.rows, firstId, today, now, draws, t * SeedMonths)
        invariant table.nextId == firstId + t * SeedMonths
      {
        SeedTeam(table, firstId, t, today, now, draws);
        t := t + 1;
      }
    }
  }
}
