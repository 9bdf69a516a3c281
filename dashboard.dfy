/** The dashboard page: the month and year-to-date views of the records, their sums,
    the zero-guarded ratios, the three-tier status and the coarse weekly pacing. */
module Dashboard {
  import opened Seqs
  import opened Schema
  import opened Metrics

  /** The team selector's value that keeps every team. */
  const Overall: string := "overall"

  /** The page's selectors: a 0-based month, a year and a team (or "overall"). */
  datatype Selection = Selection(month0: int, year: int, team: string)

  predicate TeamMatch(r: Record, team: string) {
    team == Overall || r.team == team
  }

  predicate InSelectedMonth(r: Record, sel: Selection) {
    r.date.month0 == sel.month0 && r.date.year == sel.year
  }

  function InMonthPred(sel: Selection): Record -> bool {
    r => InSelectedMonth(r, sel)
  }

  function TeamPred(team: string): Record -> bool {
    (r: Record) => r.team == team
  }

  function MonthViewPred(sel: Selection): Record -> bool {
    r => InSelectedMonth(r, sel) && TeamMatch(r, sel.team)
  }

  /** The records shown for the month: first filtered by month and year, then, unless the
      team is "overall", by team. It is one filter by the conjunction of the two conditions. */
  function MonthView(all: seq<Record>, sel: Selection): (rs: seq<Record>)
    ensures rs == Filter(all, MonthViewPred(sel))
    ensures forall x :: x in rs <==> x in all && InSelectedMonth(x, sel) && TeamMatch(x, sel.team)
    ensures IsSubsequence(rs, all)
  {
    var byDate := Filter(all, InMonthPred(sel));
    FilterIsSubsequence(all, MonthViewPred(sel));
    if sel.team == Overall then
      FilterExt(all, InMonthPred(sel), MonthViewPred(sel));
      byDate
    else
      FilterFilter(all, InMonthPred(sel), TeamPred(sel.team), MonthViewPred(sel));
      Filter(byDate, TeamPred(sel.team))
  }

  /** January up to the selected month of the selected year, for the selected team. */
  predicate InYtdWindow(r: Record, sel: Selection) {
    r.date.year == sel.year && r.date.month0 <= sel.month0 && TeamMatch(r, sel.team)
  }

  function YtdPred(sel: Selection): Record -> bool {
    r => InYtdWindow(r, sel)
  }

  function YtdRecords(all: seq<Record>, sel: Selection): (rs: seq<Record>)
    ensures forall x :: x in rs <==> x in all && InYtdWindow(x, sel)
    ensures IsSubsequence(rs, all)
  {
    FilterIsSubsequence(all, YtdPred(sel));
    Filter(all, YtdPred(sel))
  }

  /** Ship OK over the year-to-date window: 0 for an empty window, never negative for valid data. */
  function YtdShipOk(all: seq<Record>, sel: Selection): (v: real)
    ensures YtdRecords(all, sel) == [] ==> v == 0.0
    ensures (forall x :: x in all ==> NonNegative(x)) ==> v >= 0.0
  {
    var rs := YtdRecords(all, sel);
    YtdShipOkNonNegative(all, sel);
    Sum(rs, ShipOkOf)
  }

  /** Valid records give a non-negative year-to-date sum. */
  lemma YtdShipOkNonNegative(all: seq<Record>, sel: Selection)
    ensures (forall x :: x in all ==> NonNegative(x)) ==> Sum(YtdRecords(all, sel), ShipOkOf) >= 0.0
  {
    if forall x :: x in all ==> NonNegative(x) {
      var rs := YtdRecords(all, sel);
      assert forall i :: 0 <= i < |rs| ==> rs[i] in rs;
      SumNonNegative(rs, ShipOkOf);
    }
  }

  /** The month's Ship OK never exceeds the year-to-date Ship OK, which contains it. */
  lemma MonthShipOkWithinYtd(all: seq<Record>, sel: Selection)
    requires forall x :: x in all ==> NonNegative(x)
    ensures Sum(MonthView(all, sel), ShipOkOf) <= YtdShipOk(all, sel)
  {
    SumFilterMonotone(all, MonthViewPred(sel), YtdPred(sel), ShipOkOf);
  }

  // --- Year-to-date target: the last positive `ytdTarget` of each team, in input order ---

  predicate SetsYtdTarget(r: Record, year: int) {
    r.date.year == year && r.ytdTarget > 0.0
  }

  /** The value the team's Map entry holds after the loop: the `ytdTarget` of the last
      record of that team in `year` with a positive `ytdTarget`, or 0 when there is none. */
  function LastYtdTarget(s: seq<Record>, year: int, team: string): (v: real)
    ensures v >= 0.0
    decreases |s|
  {
    if s == [] then 0.0
    else
      var r := s[|s| - 1];
      if SetsYtdTarget(r, year) && r.team == team then r.ytdTarget
      else LastYtdTarget(s[..|s| - 1], year, team)
  }

  /** The Map's keys in insertion order: each team that sets a target, once, where it first does. */
  function TargetTeams(s: seq<Record>, year: int): (ts: seq<string>)
    ensures Distinct(ts)
    ensures forall t :: t in ts <==> exists r :: r in s && SetsYtdTarget(r, year) && r.team == t
    decreases |s|
  {
    if s == [] then []
    else
      var init := s[..|s| - 1];
      var r := s[|s| - 1];
      assert s == init + [r];
      var ts := TargetTeams(init, year);
      if SetsYtdTarget(r, year) && r.team !in ts then ts + [r.team] else ts
  }

  function TeamTargetFn(all: seq<Record>, year: int): string -> real {
    t => LastYtdTarget(all, year, t)
  }

  /** The YTD target the page shows: the sum over the teams for "overall", else the team's own. */
  function YtdTargetOf(all: seq<Record>, sel: Selection): (v: real)
    ensures v >= 0.0
  {
    var teams, target := TargetTeams(all, sel.year), TeamTargetFn(all, sel.year);
    SumNonNegative(teams, target);
    if sel.team == Overall then Sum(teams, target)
    else LastYtdTarget(all, sel.year, sel.team)
  }

  /** Last set wins: a later qualifying record of the team overrides every earlier one. */
  lemma {:induction false} LastSetWins(s: seq<Record>, year: int, team: string, i: int)
    requires 0 <= i < |s| && SetsYtdTarget(s[i], year) && s[i].team == team
    requires forall j :: i < j < |s| ==> !(SetsYtdTarget(s[j], year) && s[j].team == team)
    ensures LastYtdTarget(s, year, team) == s[i].ytdTarget
    decreases |s|
  {
    if i < |s| - 1 {
      LastSetWins(s[..|s| - 1], year, team, i);
    }
  }

  /** A team gets 0 exactly when none of its records in the year has a positive `ytdTarget`. */
  lemma {:induction false} NoTargetIffZero(s: seq<Record>, year: int, team: string)
    ensures LastYtdTarget(s, year, team) == 0.0 <==>
      forall r :: r in s ==> !(SetsYtdTarget(r, year) && r.team == team)
    decreases |s|
  {
    if s != [] {
      var init := s[..|s| - 1];
      assert s == init + [s[|s| - 1]];
      NoTargetIffZero(init, year, team);
    }
  }

  /** The page's `useMemo`: a Map from team to target filled in one pass, then summed or looked up. */
  method YtdTarget(all: seq<Record>, sel: Selection) returns (t: real)
    ensures t == YtdTargetOf(all, sel)
  {
    var teamTargets: map<string, real> := map[];
    var order: seq<string> := [];
    var i := 0;
    while i < |all|
      invariant 0 <= i <= |all|
      invariant order == TargetTeams(all[..i], sel.year)
      invariant forall k :: k in teamTargets <==> k in order
      invariant forall k :: k in teamTargets ==> teamTargets[k] == LastYtdTarget(all[..i], sel.year, k)
      invariant forall k :: k !in teamTargets ==> LastYtdTarget(all[..i], sel.year, k) == 0.0
    {
      var r := all[i];
      assert all[..i + 1][..i] == all[..i];
      assert all[..i + 1][i] == r;
      if SetsYtdTarget(r, sel.year) {
        if r.team !in teamTargets {
          order := order + [r.team];
        }
        teamTargets := teamTargets[r.team := r.ytdTarget];
      }
      i := i + 1;
    }
    assert all[..i] == all;
    if sel.team == Overall {
      var sum := 0.0;
      var j := 0;
      while j < |order|
        invariant 0 <= j <= |order|
        invariant sum == Sum(order[..j], TeamTargetFn(all, sel.year))
      {
        assert order[..j + 1][..j] == order[..j];
        sum := sum + teamTargets[order[j]];
        j := j + 1;
      }
      assert order[..j] == order;
      t := sum;
    } else {
      t := if sel.team in teamTargets then teamTargets[sel.team] else 0.0;
    }
  }

  // --- Monthly stats and ratios ---

  datatype MonthStats = MonthStats(totalTarget: real, totalShipOk: real, qualifiedInq: real, newDeposits: real)

  /** Plain sums over the month's records; Ship OK here counts `newDepositShipOk` only. */
  function StatsOf(records: seq<Record>): (st: MonthStats)
    ensures records == [] ==> st == MonthStats(0.0, 0.0, 0.0, 0.0)
  {
    MonthStats(Sum(records, TargetOf), Sum(records, ShipOkOf),
               Sum(records, QualifiedInquiriesOf), Sum(records, NewDepositOf))
  }

  /** The stats of two groups of records together are the componentwise sums. */
  lemma StatsOfAppend(a: seq<Record>, b: seq<Record>)
    ensures var sa, sb, st := StatsOf(a), StatsOf(b), StatsOf(a + b);
      st.totalTarget == sa.totalTarget + sb.totalTarget &&
      st.totalShipOk == sa.totalShipOk + sb.totalShipOk &&
      st.qualifiedInq == sa.qualifiedInq + sb.qualifiedInq &&
      st.newDeposits == sa.newDeposits + sb.newDeposits
  {
    SumAppend(a, b, TargetOf);
    SumAppend(a, b, ShipOkOf);
    SumAppend(a, b, QualifiedInquiriesOf);
    SumAppend(a, b, NewDepositOf);
  }

  /** The three status tiers, with the label and colour class the page uses. */
  datatype Tier = OnTrack | AtRisk | Critical {
    function Label(): string {
      match this
      case OnTrack => "On Track"
      case AtRisk => "At Risk"
      case Critical => "Critical"
    }
    function Color(): string {
      match this
      case OnTrack => "text-[hsl(var(--success))]"
      case AtRisk => "text-[hsl(var(--warning))]"
      case Critical => "text-destructive"
    }
  }

  /** `getStatus`: at least 80 is On Track, at least 50 is At Risk, anything lower Critical. */
  function Status(p: real): (t: Tier)
    ensures t == OnTrack <==> p >= 80.0
    ensures t == AtRisk <==> 50.0 <= p < 80.0
    ensures t == Critical <==> p < 50.0
  {
    if p >= 80.0 then OnTrack else if p >= 50.0 then AtRisk else Critical
  }

  function Rank(t: Tier): int {
    match t
    case Critical => 0
    case AtRisk => 1
    case OnTrack => 2
  }

  /** More progress never gives a worse tier. */
  lemma StatusMonotone(p: real, q: real)
    requires p <= q
    ensures Rank(Status(p)) <= Rank(Status(q))
  {
  }

  // --- Weekly pacing, with a month taken as four weeks ---

  const WeeksInMonth: int := 4

  /** `min(ceil(day / 7), 4)` for the day of the month. */
  function CurrentWeek(today: Day): (w: int)
    ensures 1 <= w <= WeeksInMonth
    ensures w < WeeksInMonth ==> 7 * (w - 1) < today <= 7 * w
    ensures w == WeeksInMonth <==> today > 21
  {
    var c := (today + 6) / 7;
    if c < WeeksInMonth then c else WeeksInMonth
  }

  /** The part of the month's target due by `today`: a quarter per elapsed week. */
  function TargetToDate(totalTarget: real, today: Day): real {
    totalTarget / (WeeksInMonth as real) * (CurrentWeek(today) as real)
  }

  predicate WeeklyOnTrack(st: MonthStats, today: Day) {
    st.totalShipOk >= TargetToDate(st.totalTarget, today)
  }

  /** The pacing word: the On Track tier's own label when on pace. */
  function WeeklyStatus(onTrack: bool): (s: string)
    ensures onTrack <==> s == OnTrack.Label()
  {
    if onTrack then "On Track" else "Behind Schedule"
  }

  /** The pacing colour: the On Track tier's colour when on pace, the Critical tier's otherwise. */
  function WeeklyColor(onTrack: bool): (c: string)
    ensures onTrack <==> c == OnTrack.Color()
    ensures !onTrack <==> c == Critical.Color()
  {
    if onTrack then "text-[hsl(var(--success))]" else "text-destructive"
  }

  /** For a non-negative target, the amount due grows with the day and never exceeds the target. */
  lemma TargetToDateMonotone(totalTarget: real, d1: Day, d2: Day)
    requires totalTarget >= 0.0 && d1 <= d2
    ensures TargetToDate(totalTarget, d1) <= TargetToDate(totalTarget, d2) <= totalTarget
  {
    var q := totalTarget / (WeeksInMonth as real);
    var w1, w2 := CurrentWeek(d1) as real, CurrentWeek(d2) as real;
    assert w1 <= w2 <= 4.0;
    ScaleMonotone(q, w1, w2);
    ScaleMonotone(q, w2, 4.0);
    assert q * 4.0 == totalTarget;
  }

  lemma ScaleMonotone(q: real, a: real, b: real)
    requires q >= 0.0 && a <= b
    ensures q * a <= q * b
  {
    assert q * b - q * a == q * (b - a);
  }

  /** From day 22 on, being on track weekly means having reached the whole month's target. */
  lemma LastWeekNeedsFullTarget(st: MonthStats, today: Day)
    requires today > 21
    ensures WeeklyOnTrack(st, today) <==> st.totalShipOk >= st.totalTarget
  {
  }

  /** In the first seven days a quarter of the target is due. */
  lemma FirstWeekNeedsQuarter(st: MonthStats, today: Day)
    requires today <= 7
    ensures WeeklyOnTrack(st, today) <==> st.totalShipOk * 4.0 >= st.totalTarget
  {
    assert CurrentWeek(today) == 1;
    assert TargetToDate(st.totalTarget, today) * 4.0 == st.totalTarget;
  }

  // --- The page's figures together ---

  datatype Kpis = Kpis(
    stats: MonthStats,
    progress: real,
    status: Tier,
    upsellRate: real,
    conversionRate: real,
    ytdShipOk: real,
    ytdTarget: real,
    ytdProgress: real,
    ytdStatus: Tier,
    weeklyOnTrack: bool,
    trendPositive: bool)

  /** Everything the cards show for the selection, with `today` the day of the month. */
  method ComputeKpis(all: seq<Record>, sel: Selection, today: Day) returns (k: Kpis)
    ensures k.stats == StatsOf(MonthView(all, sel))
    ensures k.progress == Percent(k.stats.totalShipOk, k.stats.totalTarget)
    ensures k.status == Status(k.progress)
    ensures k.trendPositive <==> k.status == OnTrack
    ensures k.upsellRate == Percent(Sum(MonthView(all, sel), UpsellOf), k.stats.totalShipOk)
    ensures k.conversionRate == Percent(k.stats.newDeposits, k.stats.qualifiedInq)
    ensures k.ytdShipOk == YtdShipOk(all, sel)
    ensures k.ytdTarget == YtdTargetOf(all, sel)
    ensures k.ytdProgress == Percent(k.ytdShipOk, k.ytdTarget)
    ensures k.ytdStatus == Status(k.ytdProgress)
    ensures k.weeklyOnTrack <==> k.stats.totalShipOk >= TargetToDate(k.stats.totalTarget, today)
    ensures (forall x :: x in all ==> NonNegative(x)) ==>
      k.progress >= 0.0 && k.upsellRate >= 0.0 && k.conversionRate >= 0.0 && k.ytdProgress >= 0.0
  {
    var records := MonthView(all, sel);
    var st := StatsOf(records);
    var upsell := Sum(records, UpsellOf);
    if forall x :: x in all ==> NonNegative(x) {
      assert forall i :: 0 <= i < |records| ==> records[i] in all;
      SumNonNegative(records, ShipOkOf);
      SumNonNegative(records, UpsellOf);
      SumNonNegative(records, NewDepositOf);
    }
    var progress := Percent(st.totalShipOk, st.totalTarget);
    var ytdShip := YtdShipOk(all, sel);
    var ytdTarget := YtdTarget(all, sel);
    var ytdProgress := Percent(ytdShip, ytdTarget);
    k := Kpis(st, progress, Status(progress), Percent(upsell, st.totalShipOk),
              Percent(st.newDeposits, st.qualifiedInq), ytdShip, ytdTarget, ytdProgress,
              Status(ytdProgress), WeeklyOnTrack(st, today), progress >= 80.0);
  }
}
