# Sales-KPI dashboard: a Dafny model

This project models the logic core of a small sales-KPI dashboard. Sales teams record monthly
targets and achievements ("Ship OK" and its components). The model covers these parts:

- The dashboard aggregates those records into month and year-to-date figures, ratios, status tiers
  and weekly pacing (`Dashboard`).
- The charts bucket records by calendar month and build a three-way breakdown (`KpiCharts`).
- The alerts page flags records below 80 percent of target (`Alerts`).
- The records table filters by team and month, and shows a progress badge (`DataTable`).
- A KPI card colours the status text after a " - " by keyword (`KpiCard`).
- The shared API names the routes and fills `:key` placeholders into a URL (`ApiRoutes`).
- The record schema and its create and update validation are modelled in `Schema`.
- The record store is an in-memory table class (`Storage.KpiTable`).
- The Express handlers answer with status codes and bodies, sum the stats, and seed an empty
  database (`ServerRoutes`).

Numbers are exact reals, so every ratio is exact. A date is a (year, 0-based month, day) value.
Helper modules: `Wrappers` (Option, Result), `Seqs` (filter, sums, insertion sort by key, with
their lemmas), `Text` (substring search, split and join, first-occurrence replace, ASCII lower
case, decimal rendering of integers) and `Metrics` (the zero-guarded percentage).

Where the code and the route declarations differ, the model follows the code:

- The dashboard's `totalShipOk` counts only `newDepositShipOk`. The server's stats sum three
  fields. `ServerRoutes.StatsShipOkVersusDashboard` relates the two.
- The update handler can answer 400, which the update route's declared responses (200, 404) do
  not list. `HandleUpdate` promises `resp.status in UpdateRoute.responses` only when validation
  succeeds.
- The delete route declares 404, but the handler always answers 204.

## Model

| member | source | states |
|---|---|---|
| Schema.DateKeyIsChronological | shared/schema.ts:7 | the date key orders dates by year, then month, then day, and equal keys mean equal dates |
| Schema.NewRecord | shared/schema.ts:5-26 | a stored row carries the server-assigned id and creation time and the supplied date, team, target and notes; each of the eight defaulted metrics is stored as supplied, or 0 when omitted |
| Schema.ApplyPatch | server/storage.ts:46-53 | a patch never changes id or createdAt; the empty patch changes nothing |
| Schema.ApplyPatchChangesOnlySupplied | server/storage.ts:49 | each supplied field takes the supplied value, and each omitted field keeps the old one |
| Schema.ApplyPatchIdempotent | server/storage.ts:49 | applying the same patch twice is the same as applying it once |
| Schema.FirstIssue | server/routes.ts:31-32 | no issue iff every field passes; otherwise the issue of the first failing field in schema order, with its name and message |
| Schema.NumberValue | shared/schema.ts:34-40 | a given number is kept and null coerces to 0; a value that passes the number check is at least 0 |
| Schema.OptionalNumber | shared/schema.ts:33 | an optional number keeps a given value, coerces null to 0 and stays absent when not supplied; one that passes is absent or at least 0 |
| Schema.NoIssueMeansAllPass | shared/schema.ts:28-41 | validation finds no issue iff every field rule holds |
| Schema.InsertRowOf | shared/schema.ts:32-40 | a validated create body keeps the given date, team and notes (absent or null notes are stored as null); each metric takes its given value, or 0 for null; ytdTarget stays absent when omitted; target ≥ 0, ytdTarget absent or ≥ 0, every other metric present and ≥ 0 |
| Schema.ValidateInsert | shared/schema.ts:28-41 | succeeds iff every strict rule holds, and then yields the insert row; otherwise fails with the first issue |
| Schema.PatchOf | shared/routes.ts:45 | a validated update body patches each of the twelve fields iff it was supplied: a given value as is, a null metric as 0, null notes as cleared; supplied metrics are ≥ 0 |
| Schema.ValidateUpdate | shared/routes.ts:45 | succeeds iff every rule holds with all fields optional, and then yields the patch; otherwise fails with the first issue |
| Schema.NegativeMetricRejected | shared/schema.ts:32-40 | a negative metric is rejected on both create and update |
| Schema.OnlyFailingFieldReported | server/routes.ts:29-33 | when exactly one field fails, that field's name and message are the error |
| Schema.CreateBodyIsValidUpdate | shared/routes.ts:36-45 | every valid create body is a valid update body, and its patch leaves the record it created unchanged |
| Schema.StrictPassIsPartialPass | shared/routes.ts:45 | passing the strict rules implies passing the partial ones |
| Schema.CreatedRecordIsFixedByItsPatch | shared/routes.ts:36-45 | the patch of a create body, applied to the record it created, changes nothing |
| Schema.EmptyUpdateAccepted | shared/routes.ts:45 | an update body with no fields is valid and gives the empty patch |
| Schema.ZeroTargetAccepted | shared/schema.ts:32 | target 0 passes despite the message "Target must be positive" |
| Schema.CheckNumber | shared/schema.ts:32-40 | the partner lemmas NegativeMetricRejected and ZeroTargetAccepted: a negative number is rejected, 0 is accepted, null is coerced rather than rejected, and an absent number fails only when required |
| Schema.CheckText | shared/schema.ts:5-26 | the partner lemma NoIssueMeansAllPass: a given text always passes, a missing required text is "Required", null passes only where nullable (notes) |
| Schema.Message | shared/schema.ts:32 | the partner lemma OnlyFailingFieldReported: the reported message is the failing field's own, with "Target must be positive" only for target |
| Schema.CheckField | shared/schema.ts:28-41 | by FirstIssue and StrictPassIsPartialPass: date and team are required text, notes optional and nullable, ytdTarget always optional, every other metric required on create and optional on update |
| Metrics.Percent | root/src/pages/Dashboard.tsx:66-90 | with a positive denominator the percentage times the denominator is 100 times the numerator; otherwise it is exactly 0; it is never negative for a non-negative numerator |
| Metrics.PercentAtLeast | root/src/pages/Dashboard.tsx:79-80 | a percentage reaches a threshold iff 100 times the numerator reaches threshold times denominator |
| Metrics.RatioBelowIsPercentBelow | client/src/pages/Alerts.tsx:16 | a ratio below 0.8 is the same as a percentage below 80 |
| Metrics.PercentsOfTotal | client/src/components/KpiCharts.tsx:128-133 | the three shares of a positive total sum to 100 |
| Dashboard.MonthView | root/src/pages/Dashboard.tsx:25-33 | keeps exactly the records in the selected month and year whose team matches ("overall" keeps every team), in input order |
| Dashboard.YtdRecords | root/src/pages/Dashboard.tsx:36-44 | keeps exactly the records in the selected year, with month at most the selected month, that match the team, in input order |
| Dashboard.YtdShipOk | root/src/pages/Dashboard.tsx:46 | 0 when the year-to-date set is empty, and never negative for non-negative records |
| Dashboard.YtdShipOkNonNegative | root/src/pages/Dashboard.tsx:46 | the year-to-date Ship OK of valid records is never negative |
| Dashboard.MonthShipOkWithinYtd | root/src/pages/Dashboard.tsx:25-46 | the month's Ship OK never exceeds the year-to-date Ship OK |
| Dashboard.LastYtdTarget | root/src/pages/Dashboard.tsx:52-57 | a team's target from the year's records is never negative |
| Dashboard.TargetTeams | root/src/pages/Dashboard.tsx:50-60 | the map's keys: distinct, and exactly the teams with a positive ytdTarget in the year |
| Dashboard.LastSetWins | root/src/pages/Dashboard.tsx:54-55 | a team's target is the ytdTarget of its last record, in input order, that sets one |
| Dashboard.NoTargetIffZero | root/src/pages/Dashboard.tsx:63 | a team's target is 0 iff none of its records in the year has a positive ytdTarget |
| Dashboard.YtdTarget | root/src/pages/Dashboard.tsx:49-64 | the map-filling loop computes the per-team last-set target, summed over all teams for "overall" |
| Dashboard.YtdTargetOf | root/src/pages/Dashboard.tsx:49-64 | the year-to-date target is never negative; LastSetWins and NoTargetIffZero give the per-team value |
| Dashboard.StatsOf | root/src/pages/Dashboard.tsx:69-74 | no records give all-zero stats |
| Dashboard.StatsOfAppend | root/src/pages/Dashboard.tsx:69-74 | each of the four totals is additive over concatenation |
| Dashboard.Status | root/src/pages/Dashboard.tsx:78-82 | On Track iff p ≥ 80, At Risk iff 50 ≤ p < 80, Critical iff p < 50 |
| Dashboard.Tier.Label | root/src/pages/Dashboard.tsx:78-82 | the partner lemma KpiCard.YtdStatusTone: each tier's label is shown in that tier's tone and holds no dash |
| Dashboard.Tier.Color | root/src/pages/Dashboard.tsx:78-82 | by KpiCard.YtdStatusTone: green for On Track, amber for At Risk, red for Critical |
| Dashboard.StatusMonotone | root/src/pages/Dashboard.tsx:78-82 | a higher progress never gives a worse tier |
| Dashboard.CurrentWeek | root/src/pages/Dashboard.tsx:95 | the week lies in 1..4; weeks 1 to 3 hold days 7(w-1)+1..7w, and week 4 holds every day after 21 |
| Dashboard.TargetToDateMonotone | root/src/pages/Dashboard.tsx:94-96 | the target to date grows with the day and never exceeds the month's target |
| Dashboard.ScaleMonotone | root/src/pages/Dashboard.tsx:96 | a non-negative weekly target times a larger week count is larger |
| Dashboard.LastWeekNeedsFullTarget | root/src/pages/Dashboard.tsx:93-97 | after day 21 the pace is on track iff Ship OK reaches the whole target |
| Dashboard.FirstWeekNeedsQuarter | root/src/pages/Dashboard.tsx:93-97 | in days 1..7 the pace is on track iff Ship OK reaches a quarter of the target |
| Dashboard.TargetToDate | root/src/pages/Dashboard.tsx:94-96 | the partner lemma TargetToDateMonotone: a quarter of the target per elapsed week, growing with the day and never above the target |
| Dashboard.WeeklyOnTrack | root/src/pages/Dashboard.tsx:97 | by LastWeekNeedsFullTarget and FirstWeekNeedsQuarter: on pace iff Ship OK reaches the target due so far |
| Dashboard.WeeklyStatus | root/src/pages/Dashboard.tsx:98 | the word is the On Track tier's label exactly when on pace; with KpiCard.PacedOnTrackTone and KpiCard.BehindScheduleTone, on pace makes the Ship OK status green and behind schedule leaves the tier's tone |
| Dashboard.WeeklyColor | root/src/pages/Dashboard.tsx:99 | the On Track tier's colour exactly when on pace, the Critical tier's colour exactly when not |
| Dashboard.ComputeKpis | root/src/pages/Dashboard.tsx:66-98 | every figure on the dashboard: month stats, zero-guarded progress, upsell, conversion and YTD progress, their tiers, the trend sign (positive iff On Track), and weekly pacing; all non-negative for non-negative records |
| KpiCharts.DifferentMonthsDifferentDates | client/src/components/KpiCharts.tsx:42 | dates in different month keys differ |
| KpiCharts.InMonth | client/src/components/KpiCharts.tsx:40-54 | a month's records all carry that month's key |
| KpiCharts.InMonthSnoc | client/src/components/KpiCharts.tsx:40 | one more record joins its own month only |
| KpiCharts.InMonthMembers | client/src/components/KpiCharts.tsx:42-44 | a record is in a month's group iff it is in the input with that month key |
| KpiCharts.InMonthAppend | client/src/components/KpiCharts.tsx:40 | grouping distributes over concatenation |
| KpiCharts.InMonthNone | client/src/components/KpiCharts.tsx:44 | a month no record has gets no group |
| KpiCharts.BucketOf | client/src/components/KpiCharts.tsx:44-54 | a bucket's date lies in its own month |
| KpiCharts.BucketDateIsFirst | client/src/components/KpiCharts.tsx:44-49 | a bucket's date is that of the first record met for the month |
| KpiCharts.MonthKeys | client/src/components/KpiCharts.tsx:38-50 | the month keys met, without duplicates |
| KpiCharts.MonthKeysSnoc | client/src/components/KpiCharts.tsx:44 | a record opens a new key iff its month is new |
| KpiCharts.MonthKeysMembers | client/src/components/KpiCharts.tsx:40-50 | a key is present iff some record has that month |
| KpiCharts.BucketOfSnocSame | client/src/components/KpiCharts.tsx:44-54 | a record either opens its month's bucket with its own values, or adds its target and Ship OK to the existing one |
| KpiCharts.BucketOfSnocFirst | client/src/components/KpiCharts.tsx:44-49 | a month's first record opens its bucket with its date and values |
| KpiCharts.BucketOfSnocMore | client/src/components/KpiCharts.tsx:52-54 | a later record adds into its month's bucket and keeps the date |
| KpiCharts.BucketOfSnocOther | client/src/components/KpiCharts.tsx:52 | a record leaves the other months unchanged |
| KpiCharts.MonthSumSnoc | client/src/components/KpiCharts.tsx:53-54 | a record adds its value to its own month's sum only |
| KpiCharts.PartitionStep | client/src/components/KpiCharts.tsx:40-55 | adding a record raises the total over all months by its value |
| KpiCharts.PartitionStepNewMonth | client/src/components/KpiCharts.tsx:44-50 | a record that opens a month raises the total over all months by its value |
| KpiCharts.MonthTotalsPartition | client/src/components/KpiCharts.tsx:52-54 | summing the month sums gives the input's total |
| KpiCharts.OpenThenAdd | client/src/components/KpiCharts.tsx:44-54 | open-if-missing followed by an in-place add is one map step |
| KpiCharts.MonthMapSnoc | client/src/components/KpiCharts.tsx:40-55 | the map after one more record is that step on the previous map |
| KpiCharts.MonthMapAt | client/src/components/KpiCharts.tsx:40-55 | the map holds exactly the months present, and each entry is that month's bucket |
| KpiCharts.SortedBucketsCover | client/src/components/KpiCharts.tsx:57 | every record's month bucket is among the values |
| KpiCharts.SortedBucketsStrict | client/src/components/KpiCharts.tsx:57-59 | the sorted buckets are strictly increasing by date |
| KpiCharts.SortedBucketsSums | client/src/components/KpiCharts.tsx:52-59 | the buckets' targets and Ship OKs sum to the input totals |
| KpiCharts.BucketStep | client/src/components/KpiCharts.tsx:44-54 | one loop step keeps the map and the key list as the specification of the prefix |
| KpiCharts.SortedBucketsMembers | client/src/components/KpiCharts.tsx:57 | every sorted bucket is the bucket of its own month |
| KpiCharts.SortedBuckets | client/src/components/KpiCharts.tsx:57-59 | the sorted values: one bucket per month present, each its month's sums, strictly ordered by date, totals conserved |
| KpiCharts.FillMonthlyMap | client/src/components/KpiCharts.tsx:38-55 | the loop's map holds exactly the months met, each with its bucket |
| KpiCharts.MonthlyBuckets | client/src/components/KpiCharts.tsx:36-60 | `TargetVsShipOkChart`'s data: one bucket per month present, each carrying that month's sums and first date, sorted by date, totals conserved |
| KpiCharts.OneMonthOneKey | client/src/components/KpiCharts.tsx:40-50 | records of a single month give at most one bucket key |
| KpiCharts.MonthViewOneBucket | root/src/pages/Dashboard.tsx:237-239 | any slice of the month view fed to the charts gives at most one bucket |
| KpiCharts.TrendPoints | client/src/components/KpiCharts.tsx:224-227 | each point keeps its bucket's fields and adds the zero-guarded progress |
| KpiCharts.TrendData | client/src/components/KpiCharts.tsx:201-228 | `TrendLineChart`'s data: one point per month, increasing by date, each with the month's sums, first date and zero-guarded progress |
| KpiCharts.Breakdown | client/src/components/KpiCharts.tsx:130-134 | a category is shown iff its total is positive; the shown ones keep the fixed order |
| KpiCharts.BreakdownEmptyIff | client/src/components/KpiCharts.tsx:130-134 | no slice iff all three totals are ≤ 0; no records give no slice |
| KpiCharts.NonNegativeTotals | client/src/components/KpiCharts.tsx:122-126 | the three totals of non-negative records are non-negative |
| KpiCharts.BreakdownTotals | client/src/components/KpiCharts.tsx:122-126 | the partner lemmas NonNegativeTotals and ServerRoutes.StatsShipOkIsBreakdownTotal: the three category sums, never negative for valid records, whose total is the stats Ship OK |
| KpiCharts.Categories | client/src/components/KpiCharts.tsx:128-134 | by ShownShares and ShownPercentsSumTo100: New Deposit, Strategic, Retention in that order, each with its share of the total, the shares summing to 100 |
| KpiCharts.BreakdownPercentOfTotal | client/src/components/KpiCharts.tsx:128-133 | each shown slice's percent is its value as a share of a positive total |
| KpiCharts.ShownShares | client/src/components/KpiCharts.tsx:131-134 | every kept category is its share of the total |
| KpiCharts.CategoryShare | client/src/components/KpiCharts.tsx:131-133 | a positive category implies a positive total and its exact share |
| KpiCharts.SumShownIsMasked | client/src/components/KpiCharts.tsx:134 | dropping zero slices keeps the percent sum |
| KpiCharts.BreakdownPercentsSumTo100 | client/src/components/KpiCharts.tsx:128-134 | the shown percents sum to 100 whenever any slice is shown |
| KpiCharts.ShownPercentsSumTo100 | client/src/components/KpiCharts.tsx:128-134 | the kept percents of a positive total sum to 100 |
| Alerts.Underperformers | client/src/pages/Alerts.tsx:13-17 | flags exactly the underperforming records, as an order-preserving subsequence |
| Alerts.IsUnderperformer | client/src/pages/Alerts.tsx:13-17 | the partner lemma FlaggedIffBelow80: flagged iff target > 0 and Ship OK below 80 percent of it |
| Alerts.CardProgress | client/src/pages/Alerts.tsx:42 | by DisplayedProgressBelow80: the shown progress is the record's percentage, below 80 for a flagged record |
| Alerts.CardOf | client/src/pages/Alerts.tsx:41-53 | by CardsBelow80: the card shows the record's team, a positive target and its progress below 80 |
| Alerts.FlaggedIffBelow80 | client/src/pages/Alerts.tsx:16 | flagged iff target > 0 and progress < 80 percent |
| Alerts.ZeroTargetNeverFlagged | client/src/pages/Alerts.tsx:16 | a record without a positive target is never flagged |
| Alerts.CardsOf | client/src/pages/Alerts.tsx:41-58 | one card per flagged record, in the same order |
| Alerts.View | client/src/pages/Alerts.tsx:17-41 | loading shows the loading text; otherwise "All Clear" iff nothing is flagged, else the flagged records' cards |
| Alerts.CardsBelow80 | client/src/pages/Alerts.tsx:41-53 | every card shows its record's team and a progress below 80 that is the record's percentage |
| Alerts.DisplayedProgressBelow80 | client/src/pages/Alerts.tsx:42 | the displayed progress of every flagged record is its percentage and is below 80 |
| Alerts.NothingLoadedIsAllClear | client/src/pages/Alerts.tsx:13-32 | no list or an empty list shows "All Clear" |
| DataTable.FilteredRecords | client/src/pages/DataTable.tsx:26-31 | keeps exactly the records matching both the team search and the month, in input order |
| DataTable.EmptySearchMatches | client/src/pages/DataTable.tsx:27 | the empty search matches every team |
| DataTable.InitialFilterKeepsAll | client/src/pages/DataTable.tsx:17-31 | the initial filters (empty search, "all") keep every record |
| DataTable.MonthSelection | client/src/pages/DataTable.tsx:28-29 | a selected month index matches exactly the records of that month |
| DataTable.SearchIgnoresCase | client/src/pages/DataTable.tsx:27 | lower-casing the search does not change the result |
| DataTable.RowProgress | client/src/pages/DataTable.tsx:98-100 | ship/target·100 for a positive target, else 0 |
| DataTable.BadgeIff | client/src/pages/DataTable.tsx:117 | the badge is "default" iff target > 0 and Ship OK is at least 80 percent of it |
| DataTable.Badge | client/src/pages/DataTable.tsx:117 | the partner lemma BadgeIff: "default" iff the row's progress reaches 80, "destructive" otherwise |
| DataTable.TeamMatches | client/src/pages/DataTable.tsx:27 | by EmptySearchMatches and SearchIgnoresCase: case-insensitive substring search, the empty search matching all |
| DataTable.MonthMatches | client/src/pages/DataTable.tsx:28-29 | the partner lemma MonthSelection: "all" matches every record, a month index exactly that month's records |
| KpiCard.ColorOf | client/src/components/KpiCard.tsx:19 | an omitted colour is "default" |
| KpiCard.ColorClassesDistinct | client/src/components/KpiCard.tsx:20-26 | the colour map gives each key its own class |
| KpiCard.ColorClass | client/src/components/KpiCard.tsx:20-26 | the partner lemma ColorClassesDistinct: each of the five colours has its own class |
| KpiCard.StatusTone | client/src/components/KpiCard.tsx:33-43 | success iff "On Track" occurs; else warning iff "At Risk"; else danger iff "Critical" or "Behind Schedule"; else muted |
| KpiCard.RenderSubValue | client/src/components/KpiCard.tsx:28-51 | text without " - " is shown as is; otherwise the text before the first separator, and as status the text after it up to the next separator (or to the end), coloured by its keyword |
| Text.SplitSecond | client/src/components/KpiCard.tsx:29-32 | the second part of a split is the text after the first separator, up to the next one |
| KpiCard.RenderShowsText | client/src/components/KpiCard.tsx:32-48 | with exactly two segments, the figure, separator and status rebuild the text |
| KpiCard.NoEarlySep | client/src/components/KpiCard.tsx:29 | no separator occurs inside a dash-free figure |
| KpiCard.SplitPair | client/src/components/KpiCard.tsx:29 | figure + " - " + status splits into those two parts |
| KpiCard.SplitTriple | client/src/components/KpiCard.tsx:29 | a third segment only extends the split after the first two parts |
| KpiCard.FurtherSegmentsIgnored | client/src/components/KpiCard.tsx:32 | segments after the second do not change the rendering |
| KpiCard.OnTrackFirstTone | client/src/components/KpiCard.tsx:33-38 | a status starting "On Track" is success |
| KpiCard.PacedOnTrackTone | root/src/pages/Dashboard.tsx:194 | any tier followed by "(On Track)" pacing is success |
| KpiCard.AtRiskFirstTone | client/src/components/KpiCard.tsx:34-40 | "At Risk" without an "O" after it is warning |
| KpiCard.CriticalFirstTone | client/src/components/KpiCard.tsx:35-42 | "Critical" with no earlier keyword is danger |
| KpiCard.BehindScheduleTone | root/src/pages/Dashboard.tsx:194 | behind-schedule pacing is coloured by the tier |
| KpiCard.ShipOkStatusTone | root/src/pages/Dashboard.tsx:194 | the Ship OK status is success when the tier or the pacing is on track; otherwise warning for At Risk and danger for Critical |
| KpiCard.CriticalOnTrackIsSuccess | client/src/components/KpiCard.tsx:33-38 | "Critical (On Track)" is success, because "On Track" has priority |
| KpiCard.NoKeywordIsMuted | client/src/components/KpiCard.tsx:43 | a status with no keyword is muted |
| KpiCard.ShipOkStatusHasNoDash | root/src/pages/Dashboard.tsx:194 | the status text holds no dash that could split it further |
| KpiCard.Pacing | root/src/pages/Dashboard.tsx:194 | the partner lemma PacedOnTrackTone: "(On Track)" pacing turns any status green |
| KpiCard.ShipOkStatus | root/src/pages/Dashboard.tsx:194 | by ShipOkStatusTone and ShipOkStatusHasNoDash: the tier label and weekly pacing, dash-free, green when either is on track |
| KpiCard.ShipOkSubValue | root/src/pages/Dashboard.tsx:194 | the partner lemma ShipOkCardRender: rendered as the percent text and the status in its tone |
| KpiCard.YtdSubValue | root/src/pages/Dashboard.tsx:221 | the partner lemma YtdCardRender: rendered as the percent text and the tier label in the tier's tone |
| KpiCard.ShipOkCardRender | root/src/pages/Dashboard.tsx:194 | the Ship OK card shows the percent text and the status with the right tone |
| KpiCard.AppendNoDash | root/src/pages/Dashboard.tsx:194 | appending dash-free text keeps the figure free of separators |
| KpiCard.YtdCardRender | root/src/pages/Dashboard.tsx:221 | the YTD card shows the percent text and the tier label in the tier's colour |
| KpiCard.YtdStatusTone | root/src/pages/Dashboard.tsx:78-82 | each tier's label is coloured as its own colour, and carries no dash |
| KpiCard.TrendText | client/src/components/KpiCard.tsx:70 | the badge is one character longer than the value, plus one for the sign |
| KpiCard.TrendSignIff | client/src/components/KpiCard.tsx:70 | the badge starts with "+" iff the trend is positive, then the value and "%" |
| KpiCard.TrendClass | client/src/components/KpiCard.tsx:70 | the trend badge carries the Success card's classes exactly when positive and the Danger card's exactly when not |
| ApiRoutes.RoutePaths | shared/routes.ts:17-58 | update and delete share "/api/kpi/:id"; list and create share "/api/kpi" |
| ApiRoutes.Placeholder | shared/routes.ts:88 | the placeholder is ':' followed by the key |
| ApiRoutes.BuildUrl | shared/routes.ts:84-94 | no params return the path; otherwise the entries are applied in order, each to the previous result |
| ApiRoutes.AbsentKeyUnchanged | shared/routes.ts:88 | a key whose placeholder is absent leaves the url unchanged |
| ApiRoutes.PresentKeyReplacedOnce | shared/routes.ts:89 | only the first occurrence of the placeholder is replaced by the value's text |
| ApiRoutes.ApplyEntriesAppend | shared/routes.ts:87-91 | applying two entry lists in turn is applying their concatenation |
| ApiRoutes.RecordUrl | shared/routes.ts:44-89 | filling id n into "/api/kpi/:id" gives "/api/kpi/" followed by n's decimal text |
| ApiRoutes.UnusedParamIgnored | shared/routes.ts:88 | a parameter the path does not mention is ignored |
| ApiRoutes.Substitute | shared/routes.ts:88-89 | by AbsentKeyUnchanged and PresentKeyReplacedOnce: an absent placeholder leaves the url as is, a present one has only its first occurrence replaced |
| ApiRoutes.ApplyEntries | shared/routes.ts:87-91 | the partner lemma ApplyEntriesAppend: the entries apply in order, splitting at any point |
| Storage.BuildConditions | server/storage.ts:23-26 | the collected conditions hold iff the filters match; none are collected iff no filter is given |
| Storage.EmptyTeamIsNoFilter | server/storage.ts:26 | an empty team string filters nothing |
| Storage.Matches | server/storage.ts:24-30 | a row matches iff it is on or after a given start date, on or before a given end date, and of a given non-empty team; the partner method BuildConditions collects conditions that hold exactly when it matches |
| Storage.FilterUniqueIds | server/storage.ts:56 | removing rows keeps the ids unique |
| Storage.PatchRows | server/storage.ts:47-51 | exactly the rows with that id get the patch; the others stay as they were |
| Storage.KpiTable.constructor | shared/schema.ts:5-6 | an empty table whose serial starts at 1 |
| Storage.KpiTable.List | server/storage.ts:20-34 | the result is a permutation of the matching rows, holds exactly the rows matching every given filter, and is newest first |
| Storage.KpiTable.Where | server/storage.ts:28-30 | the rows meeting every condition, in table order |
| Storage.KpiTable.Get | server/storage.ts:36-39 | the row with that id, or nothing iff no row has it |
| Storage.KpiTable.Create | server/storage.ts:41-44 | appends the new record under the next serial id, distinct from every stored id |
| Storage.KpiTable.Update | server/storage.ts:46-53 | patches the row with that id; nothing returned and nothing changed iff no row has it |
| Storage.KpiTable.Delete | server/storage.ts:55-57 | removes exactly the rows with that id; a missing id changes nothing |
| ServerRoutes.StatsBody | server/routes.ts:76-80 | teams is always empty; no records give zero totals |
| ServerRoutes.StatsShipOkIsBreakdownTotal | server/routes.ts:72-74 | the stats Ship OK equals the breakdown chart's total value |
| ServerRoutes.StatsShipOkVersusDashboard | server/routes.ts:72-74 | the stats Ship OK is at least the dashboard's, and equal iff strategic and retention sum to 0 |
| ServerRoutes.StatsOrderIndependent | server/routes.ts:68-74 | the stats do not depend on the list order |
| ServerRoutes.HandleList | server/routes.ts:13-21 | 200 with the matching rows, newest first |
| ServerRoutes.HandleCreate | server/routes.ts:23-37 | 400 with the first issue and the table unchanged, or 201 with the stored record |
| ServerRoutes.HandleUpdate | server/routes.ts:39-55 | 400 with the first issue and the table unchanged; otherwise the patched table, 404 "Record not found" iff no row has the id, else 200 with the patched row |
| ServerRoutes.HandleDelete | server/routes.ts:57-61 | always 204 with no body; the row with that id is gone |
| ServerRoutes.HandleStats | server/routes.ts:63-81 | 200 with the sum of targets, the three-field Ship OK sum over all rows, and no teams |
| ServerRoutes.DaysIn | server/routes.ts:99-100 | every month has 28 to 31 days |
| ServerRoutes.MonthsBack | server/routes.ts:99-100 | the seed date i months back, with the day clamped to that month's length |
| ServerRoutes.MonthsBackMonth | server/routes.ts:99-100 | the corrected date lies exactly i months back and keeps the day when it fits |
| ServerRoutes.MonthsBackDistinct | server/routes.ts:98-100 | different offsets give different months |
| ServerRoutes.AsWrittenAgreesOnEarlyDays | server/routes.ts:99-100 | up to day 28 the code as written and the corrected date agree |
| ServerRoutes.AsWrittenSpillsOver | server/routes.ts:99-100 | as written, a day past the target month's end rolls into the next month |
| ServerRoutes.AsWrittenMarch31 | server/routes.ts:99-100 | as written, 2024-03-31 minus one month is 2024-03-02, the same month as offset 0 |
| ServerRoutes.MonthsBackAsWritten | server/routes.ts:99-100 | by AsWrittenAgreesOnEarlyDays, AsWrittenSpillsOver and AsWrittenMarch31: `setMonth` date arithmetic, rolling a missing day into the next month |
| ServerRoutes.FloorScaledRange | server/routes.ts:105-111 | `floor(x·n)` of a draw in [0, 1) lies in 0..n-1 |
| ServerRoutes.SeedRowShaped | server/routes.ts:102-113 | a seeded row's metrics lie in the code's ranges, are non-negative, and carry the team, date and seed note |
| ServerRoutes.SeedRow | server/routes.ts:102-113 | the partner lemma SeedRowShaped: metrics in the code's ranges, non-negative, with the team, date and seed note |
| ServerRoutes.SeedPosition | server/routes.ts:96-98 | the (team, month) position t·3+i lies below 24 and decodes back to t and i |
| ServerRoutes.SeedRecordAt | server/routes.ts:96-113 | the record at position t·3+i is team t's row for i months back, with the matching serial id, with MonthsBack's clamped date rather than the code's `setMonth` date |
| ServerRoutes.SeedCoversTeamsAndMonths | server/routes.ts:93-115 | the seed holds 24 rows: one for each of the 8 teams in each of the last 3 months, all in range, with MonthsBack's clamped date rather than the code's `setMonth` date |
| ServerRoutes.SeedTeam | server/routes.ts:98-114 | the inner loop adds one team's three rows, in order, with MonthsBack's clamped date rather than the code's `setMonth` date |
| ServerRoutes.SeedDatabase | server/routes.ts:89-117 | a non-empty table is left as it was; an empty one receives the 24 seed rows in team-then-month order, with MonthsBack's clamped date rather than the code's `setMonth` date |

## Left out

- Date strings: JavaScript `Date` parsing and time zones are not modelled. The UTC reading of
  "YYYY-MM-DD", the local `getMonth`, and `toISOString` are all out. Dates are
  (year, month, day) values and query strings arrive already parsed; an absent or empty date
  filter is None.
- Clock and randomness: "today", the current day of the month and the creation timestamp are
  parameters. The `Math.random` draws are supplied as a sequence of values in [0, 1).
- Display formatting: `toFixed`, `toLocaleString`, `parseFloat(toFixed(..))` and `date-fns`
  formatting are not modelled. Ratios are exact reals.
- `String.prototype.replace` special `$` patterns in values: not modelled; values are inserted
  literally.
- `Object.entries` key order: not modelled (it puts integer-like keys first). `BuildUrl` takes
  the entries as a list in the order that call would return.
- ApiRoutes.ParamValue: only strings and integers are modelled as parameter values. A
  non-integer number such as 1.5, which `String` renders as "1.5", is not modelled.
- Case folding: only ASCII lower case is modelled, not full Unicode case folding.
- Storage engine: the Postgres/drizzle engine itself is out. There is no SQL, and no order
  among rows with the same date; `List` promises only newest-first order and the row
  multiset. Asynchronous and concurrent request handling is out too.
- Storage.KpiTable.Update: an update with an empty patch is modelled as a no-op success. The
  ORM's behaviour for a `set` with no columns is not modelled.
- Id parsing: `parseInt` of the id parameter (including NaN) is out. The handlers take an
  integer id.
- Thrown errors: the Express 500 path for errors that are not validation errors is out.
- zod coercion: string-to-number coercion is modelled only by its outcome. A field is absent,
  null, a number, or a value of another type named by its type.
- Team stats: the stats route's year and month query inputs, and its `teams` detail, are not
  computed by the code, so the model does not compute them either.
- UI: chart rendering, pie-label trigonometry, PDF export, animation, icons, the form with its
  browser storage, the network hooks and routing are out.
- ServerRoutes.StatsBody: its own contract states only the empty-input and `teams` facts. The
  totals are stated by `HandleStats` and the lemmas beside it.
- Dashboard.StatsOf: its own contract states only the empty case. Additivity is the
  `StatsOfAppend` lemma.

## Findings

| source | as written | input that shows it | evidently intended | confidence | as-written member | corrected member |
|---|---|---|---|---|---|---|
| server/routes.ts:99-100 | `d.setMonth(d.getMonth() - i)` keeps the day of the month, so a day the earlier month lacks rolls over into the following month | today 2024-03-31 and i = 1 give 2024-03-02, the same month as i = 0, so one team gets two March rows and no February row | three rows per team in three distinct consecutive months | not executed | ServerRoutes.MonthsBackAsWritten (shown by ServerRoutes.AsWrittenMarch31 and ServerRoutes.AsWrittenSpillsOver) | ServerRoutes.MonthsBack (proved by ServerRoutes.MonthsBackDistinct and ServerRoutes.MonthsBackMonth); the seed uses it |
