/** The KPI record table and the validation of create and update bodies. */
module Schema {
  import opened Wrappers

  type Month0 = m: int | 0 <= m < 12
  type Day = d: int | 1 <= d <= 31 witness 1

  /** A value of the `date` column: year, 0-based month (as `getMonth` gives it) and day of month. */
  datatype Date = Date(year: int, month0: Month0, day: Day)

  /** Dates as one integer, in chronological order. */
  function DateKey(d: Date): int {
    d.year * 384 + d.month0 * 32 + d.day
  }

  lemma DateKeyIsChronological(a: Date, b: Date)
    ensures DateKey(a) < DateKey(b) <==>
      a.year < b.year || (a.year == b.year && (a.month0 < b.month0 || (a.month0 == b.month0 && a.day < b.day)))
    ensures DateKey(a) == DateKey(b) <==> a == b
  {
  }

  /** A stored row. `date`, `team` and `target` are non-null columns; `notes` is nullable.
      The metric columns with a default are never null once written through the API
      (validation turns null into 0), so they are plain numbers here. */
  datatype Record = Record(
    id: int,
    date: Date,
    team: string,
    target: real,
    ytdTarget: real,
    qualifiedInquiries: real,
    newRegister: real,
    newDeposit: real,
    newDepositShipOk: real,
    strategic: real,
    retention: real,
    upsell: real,
    notes: Option<string>,
    createdAt: int)

  function TargetOf(r: Record): real { r.target }
  function ShipOkOf(r: Record): real { r.newDepositShipOk }
  function StrategicOf(r: Record): real { r.strategic }
  function RetentionOf(r: Record): real { r.retention }
  function QualifiedInquiriesOf(r: Record): real { r.qualifiedInquiries }
  function NewDepositOf(r: Record): real { r.newDeposit }
  function UpsellOf(r: Record): real { r.upsell }

  /** Every metric is at least 0, as create and update validation guarantee. */
  predicate NonNegative(r: Record) {
    r.target >= 0.0 && r.ytdTarget >= 0.0 && r.qualifiedInquiries >= 0.0 && r.newRegister >= 0.0 &&
    r.newDeposit >= 0.0 && r.newDepositShipOk >= 0.0 && r.strategic >= 0.0 && r.retention >= 0.0 &&
    r.upsell >= 0.0
  }

  /** The values an insert supplies. `id` and `createdAt` are not part of it; a column
      left as None takes its default "0" (or null for `notes`). */
  datatype InsertRow = InsertRow(
    date: Date,
    team: string,
    target: real,
    ytdTarget: Option<real>,
    qualifiedInquiries: Option<real>,
    newRegister: Option<real>,
    newDeposit: Option<real>,
    newDepositShipOk: Option<real>,
    strategic: Option<real>,
    retention: Option<real>,
    upsell: Option<real>,
    notes: Option<string>)

  /** The row the table stores for an insert: server-assigned `id` and `createdAt`, column defaults applied. */
  function NewRecord(id: int, row: InsertRow, createdAt: int): (r: Record)
    ensures r.id == id && r.createdAt == createdAt
    ensures r.date == row.date && r.team == row.team && r.target == row.target && r.notes == row.notes
    ensures row.ytdTarget.None? ==> r.ytdTarget == 0.0
    ensures row.ytdTarget.Some? ==> r.ytdTarget == row.ytdTarget.value
    ensures row.qualifiedInquiries.None? ==> r.qualifiedInquiries == 0.0
    ensures row.qualifiedInquiries.Some? ==> r.qualifiedInquiries == row.qualifiedInquiries.value
    ensures row.newRegister.None? ==> r.newRegister == 0.0
    ensures row.newRegister.Some? ==> r.newRegister == row.newRegister.value
    ensures row.newDeposit.None? ==> r.newDeposit == 0.0
    ensures row.newDeposit.Some? ==> r.newDeposit == row.newDeposit.value
    ensures row.newDepositShipOk.None? ==> r.newDepositShipOk == 0.0
    ensures row.newDepositShipOk.Some? ==> r.newDepositShipOk == row.newDepositShipOk.value
    ensures row.strategic.None? ==> r.strategic == 0.0
    ensures row.strategic.Some? ==> r.strategic == row.strategic.value
    ensures row.retention.None? ==> r.retention == 0.0
    ensures row.retention.Some? ==> r.retention == row.retention.value
    ensures row.upsell.None? ==> r.upsell == 0.0
    ensures row.upsell.Some? ==> r.upsell == row.upsell.value
  {
    Record(id, row.date, row.team, row.target, row.ytdTarget.GetOr(0.0),
      row.qualifiedInquiries.GetOr(0.0), row.newRegister.GetOr(0.0), row.newDeposit.GetOr(0.0),
      row.newDepositShipOk.GetOr(0.0), row.strategic.GetOr(0.0), row.retention.GetOr(0.0),
      row.upsell.GetOr(0.0), row.notes, createdAt)
  }

  /** A partial update: None leaves a column as it is; `notes` may be set to null (Some(None)). */
  datatype Patch = Patch(
    date: Option<Date>,
    team: Option<string>,
    target: Option<real>,
    ytdTarget: Option<real>,
    qualifiedInquiries: Option<real>,
    newRegister: Option<real>,
    newDeposit: Option<real>,
    newDepositShipOk: Option<real>,
    strategic: Option<real>,
    retention: Option<real>,
    upsell: Option<real>,
    notes: Option<Option<string>>)

  const EmptyPatch := Patch(None, None, None, None, None, None, None, None, None, None, None, None)

  /** SQL `UPDATE ... SET <supplied columns>` on one row. */
  function ApplyPatch(r: Record, p: Patch): (u: Record)
    ensures u.id == r.id && u.createdAt == r.createdAt
    ensures p == EmptyPatch ==> u == r
  {
    Record(r.id, p.date.GetOr(r.date), p.team.GetOr(r.team), p.target.GetOr(r.target),
      p.ytdTarget.GetOr(r.ytdTarget), p.qualifiedInquiries.GetOr(r.qualifiedInquiries),
      p.newRegister.GetOr(r.newRegister), p.newDeposit.GetOr(r.newDeposit),
      p.newDepositShipOk.GetOr(r.newDepositShipOk), p.strategic.GetOr(r.strategic),
      p.retention.GetOr(r.retention), p.upsell.GetOr(r.upsell), p.notes.GetOr(r.notes), r.createdAt)
  }

  /** A column is changed by a patch only if the patch supplies it, and then to the supplied value. */
  lemma ApplyPatchChangesOnlySupplied(r: Record, p: Patch)
    ensures var u := ApplyPatch(r, p);
      (p.target.None? ==> u.target == r.target) && (p.target.Some? ==> u.target == p.target.value) &&
      (p.team.None? ==> u.team == r.team) && (p.team.Some? ==> u.team == p.team.value) &&
      (p.date.None? ==> u.date == r.date) && (p.date.Some? ==> u.date == p.date.value) &&
      (p.notes.None? ==> u.notes == r.notes) && (p.notes.Some? ==> u.notes == p.notes.value) &&
      (p.ytdTarget.None? ==> u.ytdTarget == r.ytdTarget) && (p.ytdTarget.Some? ==> u.ytdTarget == p.ytdTarget.value) &&
      (p.qualifiedInquiries.None? ==> u.qualifiedInquiries == r.qualifiedInquiries) && (p.qualifiedInquiries.Some? ==> u.qualifiedInquiries == p.qualifiedInquiries.value) &&
      (p.newRegister.None? ==> u.newRegister == r.newRegister) && (p.newRegister.Some? ==> u.newRegister == p.newRegister.value) &&
      (p.newDeposit.None? ==> u.newDeposit == r.newDeposit) && (p.newDeposit.Some? ==> u.newDeposit == p.newDeposit.value) &&
      (p.newDepositShipOk.None? ==> u.newDepositShipOk == r.newDepositShipOk) && (p.newDepositShipOk.Some? ==> u.newDepositShipOk == p.newDepositShipOk.value) &&
      (p.strategic.None? ==> u.strategic == r.strategic) && (p.strategic.Some? ==> u.strategic == p.strategic.value) &&
      (p.retention.None? ==> u.retention == r.retention) && (p.retention.Some? ==> u.retention == p.retention.value) &&
      (p.upsell.None? ==> u.upsell == r.upsell) && (p.upsell.Some? ==> u.upsell == p.upsell.value)
  {
  }

  /** Sending the same update twice has the effect of sending it once. */
  lemma ApplyPatchIdempotent(r: Record, p: Patch)
    ensures ApplyPatch(ApplyPatch(r, p), p) == ApplyPatch(r, p)
  {
  }

  // ---------------------------------------------------------------------------
  // Validation of request bodies (the insert schema and its `.partial()` form)

  /** One field of a JSON body before validation. `Other` is a value of another JSON type:
      for a number field one that coerces to NaN, for a text field one of type `typeName`. */
  datatype RawField<T> = Absent | Null | Given(value: T) | Other(typeName: string)

  datatype RawInput = RawInput(
    date: RawField<Date>,
    team: RawField<string>,
    target: RawField<real>,
    ytdTarget: RawField<real>,
    qualifiedInquiries: RawField<real>,
    newRegister: RawField<real>,
    newDeposit: RawField<real>,
    newDepositShipOk: RawField<real>,
    strategic: RawField<real>,
    retention: RawField<real>,
    upsell: RawField<real>,
    notes: RawField<string>)

  datatype Field =
    | DateField | TeamField | TargetField | YtdTargetField | QualifiedInquiriesField
    | NewRegisterField | NewDepositField | NewDepositShipOkField | StrategicField
    | RetentionField | UpsellField | NotesField

  /** The name of the field, which is also its error path joined by ".". */
  function FieldName(f: Field): string {
    match f
    case DateField => "date"
    case TeamField => "team"
    case TargetField => "target"
    case YtdTargetField => "ytdTarget"
    case QualifiedInquiriesField => "qualifiedInquiries"
    case NewRegisterField => "newRegister"
    case NewDepositField => "newDeposit"
    case NewDepositShipOkField => "newDepositShipOk"
    case StrategicField => "strategic"
    case RetentionField => "retention"
    case UpsellField => "upsell"
    case NotesField => "notes"
  }

  /** The order in which the schema checks its fields (the table's column order, `id` and
      `createdAt` omitted); the first problem in this order is the one reported. */
  const FieldOrder: seq<Field> := [
    DateField, TeamField, TargetField, YtdTargetField, QualifiedInquiriesField, NewRegisterField,
    NewDepositField, NewDepositShipOkField, StrategicField, RetentionField, UpsellField, NotesField]

  predicate IsMetric(f: Field) {
    f != DateField && f != TeamField && f != NotesField
  }

  datatype IssueKind = Required | NotANumber | NotAString(received: string) | TooSmall

  /** A validation problem as the API reports it: the message and the field path. */
  datatype Issue = Issue(field: string, message: string)

  function Message(f: Field, k: IssueKind): string {
    match k
    case Required => "Required"
    case NotANumber => "Expected number, received nan"
    case NotAString(t) => "Expected string, received " + t
    case TooSmall => if f == TargetField then "Target must be positive" else "Number must be greater than or equal to 0"
  }

  /** A coerced number with minimum 0; `optional` fields accept an absent value. */
  function CheckNumber(x: RawField<real>, optional: bool): Option<IssueKind> {
    match x
    case Absent => if optional then None else Some(NotANumber)
    case Null => None
    case Given(v) => if v < 0.0 then Some(TooSmall) else None
    case Other(_) => Some(NotANumber)
  }

  function CheckText<T>(x: RawField<T>, optional: bool, nullable: bool): Option<IssueKind> {
    match x
    case Absent => if optional then None else Some(Required)
    case Null => if nullable then None else Some(NotAString("null"))
    case Given(_) => None
    case Other(t) => Some(NotAString(t))
  }

  /** The raw value of a metric field. */
  function MetricValue(raw: RawInput, f: Field): RawField<real>
    requires IsMetric(f)
  {
    match f
    case TargetField => raw.target
    case YtdTargetField => raw.ytdTarget
    case QualifiedInquiriesField => raw.qualifiedInquiries
    case NewRegisterField => raw.newRegister
    case NewDepositField => raw.newDeposit
    case NewDepositShipOkField => raw.newDepositShipOk
    case StrategicField => raw.strategic
    case RetentionField => raw.retention
    case UpsellField => raw.upsell
  }

  /** The problem with one field, if any; `partial` is the update form, where every field is optional. */
  function CheckField(raw: RawInput, f: Field, partial: bool): Option<IssueKind> {
    match f
    case DateField => CheckText(raw.date, partial, false)
    case TeamField => CheckText(raw.team, partial, false)
    case NotesField => CheckText(raw.notes, true, true)
    case _ => CheckNumber(MetricValue(raw, f), partial || f == YtdTargetField)
  }

  /** The first problem among `fields`, in their order. */
  function FirstIssue(raw: RawInput, fields: seq<Field>, partial: bool): (r: Option<Issue>)
    ensures r.None? <==> forall i :: 0 <= i < |fields| ==> CheckField(raw, fields[i], partial).None?
    ensures r.Some? ==> exists k :: (0 <= k < |fields| && CheckField(raw, fields[k], partial).Some? &&
      (forall j :: 0 <= j < k ==> CheckField(raw, fields[j], partial).None?) &&
      r.value == Issue(FieldName(fields[k]), Message(fields[k], CheckField(raw, fields[k], partial).value)))
    decreases |fields|
  {
    if fields == [] then None
    else match CheckField(raw, fields[0], partial)
      case Some(k) => Some(Issue(FieldName(fields[0]), Message(fields[0], k)))
      case None =>
        var r := FirstIssue(raw, fields[1..], partial);
        assert forall i :: 1 <= i < |fields| ==> fields[i] == fields[1..][i - 1];
        r
  }

  /** How an accepted number field is coerced: a given number is kept, null becomes 0
      (`Number(null)`), and an absent field stays absent. */
  predicate CoercesTo(x: RawField<real>, o: Option<real>) {
    (x.Absent? ==> o.None?) && (x.Null? ==> o == Some(0.0)) && (x.Given? ==> o == Some(x.value))
  }

  /** An accepted required number: null coerces to 0. */
  function NumberValue(x: RawField<real>): (v: real)
    ensures CheckNumber(x, true).None? ==> v >= 0.0
    ensures x.Given? ==> v == x.value
    ensures x.Null? ==> v == 0.0
  {
    if x.Given? then x.value else 0.0
  }

  /** An accepted optional number: absent stays absent, null coerces to 0. */
  function OptionalNumber(x: RawField<real>): (v: Option<real>)
    ensures CheckNumber(x, true).None? ==> v.GetOr(0.0) >= 0.0
    ensures v.None? <==> x.Absent? || x.Other?
    ensures CoercesTo(x, v)
  {
    match x
    case Given(v) => Some(v)
    case Null => Some(0.0)
    case _ => None
  }

  function OptionalText<T>(x: RawField<T>): Option<T> {
    if x.Given? then Some(x.value) else None
  }

  /** Every field passes: what an accepted body satisfies. */
  predicate AllPass(raw: RawInput, partial: bool) {
    && CheckField(raw, DateField, partial).None?
    && CheckField(raw, TeamField, partial).None?
    && CheckField(raw, TargetField, partial).None?
    && CheckField(raw, YtdTargetField, partial).None?
    && CheckField(raw, QualifiedInquiriesField, partial).None?
    && CheckField(raw, NewRegisterField, partial).None?
    && CheckField(raw, NewDepositField, partial).None?
    && CheckField(raw, NewDepositShipOkField, partial).None?
    && CheckField(raw, StrategicField, partial).None?
    && CheckField(raw, RetentionField, partial).None?
    && CheckField(raw, UpsellField, partial).None?
    && CheckField(raw, NotesField, partial).None?
  }

  lemma NoIssueMeansAllPass(raw: RawInput, partial: bool)
    ensures FirstIssue(raw, FieldOrder, partial).None? <==> AllPass(raw, partial)
  {
    var r := FirstIssue(raw, FieldOrder, partial);
    if r.None? {
      assert CheckField(raw, FieldOrder[0], partial).None?;
      assert CheckField(raw, FieldOrder[1], partial).None?;
      assert CheckField(raw, FieldOrder[2], partial).None?;
      assert CheckField(raw, FieldOrder[3], partial).None?;
      assert CheckField(raw, FieldOrder[4], partial).None?;
      assert CheckField(raw, FieldOrder[5], partial).None?;
      assert CheckField(raw, FieldOrder[6], partial).None?;
      assert CheckField(raw, FieldOrder[7], partial).None?;
      assert CheckField(raw, FieldOrder[8], partial).None?;
      assert CheckField(raw, FieldOrder[9], partial).None?;
      assert CheckField(raw, FieldOrder[10], partial).None?;
      assert CheckField(raw, FieldOrder[11], partial).None?;
    }
  }

  /** The row an accepted create body inserts. */
  function InsertRowOf(raw: RawInput): (row: InsertRow)
    requires AllPass(raw, false)
    ensures row.target >= 0.0 && row.ytdTarget.GetOr(0.0) >= 0.0
    ensures row.qualifiedInquiries.Some? && row.qualifiedInquiries.value >= 0.0
    ensures row.newRegister.Some? && row.newRegister.value >= 0.0
    ensures row.newDeposit.Some? && row.newDeposit.value >= 0.0
    ensures row.newDepositShipOk.Some? && row.newDepositShipOk.value >= 0.0
    ensures row.strategic.Some? && row.strategic.value >= 0.0
    ensures row.retention.Some? && row.retention.value >= 0.0
    ensures row.upsell.Some? && row.upsell.value >= 0.0
    ensures row.date == raw.date.value && row.team == raw.team.value
    ensures raw.notes.Given? ==> row.notes == Some(raw.notes.value)
    ensures !raw.notes.Given? ==> row.notes.None?
    ensures raw.target.Given? ==> row.target == raw.target.value
    ensures raw.target.Null? ==> row.target == 0.0
    ensures CoercesTo(raw.ytdTarget, row.ytdTarget)
    ensures CoercesTo(raw.qualifiedInquiries, row.qualifiedInquiries)
    ensures CoercesTo(raw.newRegister, row.newRegister)
    ensures CoercesTo(raw.newDeposit, row.newDeposit)
    ensures CoercesTo(raw.newDepositShipOk, row.newDepositShipOk)
    ensures CoercesTo(raw.strategic, row.strategic)
    ensures CoercesTo(raw.retention, row.retention)
    ensures CoercesTo(raw.upsell, row.upsell)
  {
    InsertRow(raw.date.value, raw.team.value, NumberValue(raw.target), OptionalNumber(raw.ytdTarget),
      Some(NumberValue(raw.qualifiedInquiries)), Some(NumberValue(raw.newRegister)),
      Some(NumberValue(raw.newDeposit)), Some(NumberValue(raw.newDepositShipOk)),
      Some(NumberValue(raw.strategic)), Some(NumberValue(raw.retention)),
      Some(NumberValue(raw.upsell)), OptionalText(raw.notes))
  }

  /** The create body: every metric except `ytdTarget` is required and at least 0;
      a rejected body reports the first failing field in schema order. */
  function ValidateInsert(raw: RawInput): (r: Result<InsertRow, Issue>)
    ensures r.Success? <==> AllPass(raw, false)
    ensures r.Success? ==> r.value == InsertRowOf(raw)
    ensures r.Failure? ==> Some(r.error) == FirstIssue(raw, FieldOrder, false)
  {
    NoIssueMeansAllPass(raw, false);
    if AllPass(raw, false) then Success(InsertRowOf(raw))
    else Failure(FirstIssue(raw, FieldOrder, false).value)
  }

  function NotesPatch(x: RawField<string>): Option<Option<string>> {
    match x
    case Given(s) => Some(Some(s))
    case Null => Some(None)
    case _ => None
  }

  /** The patch an accepted update body applies: only supplied fields. */
  function PatchOf(raw: RawInput): (p: Patch)
    requires AllPass(raw, true)
    ensures p.target.GetOr(0.0) >= 0.0 && p.ytdTarget.GetOr(0.0) >= 0.0
    ensures p.qualifiedInquiries.GetOr(0.0) >= 0.0 && p.newRegister.GetOr(0.0) >= 0.0
    ensures p.newDeposit.GetOr(0.0) >= 0.0 && p.newDepositShipOk.GetOr(0.0) >= 0.0
    ensures p.strategic.GetOr(0.0) >= 0.0 && p.retention.GetOr(0.0) >= 0.0 && p.upsell.GetOr(0.0) >= 0.0
    ensures p.date.None? <==> raw.date.Absent?
    ensures p.team.None? <==> raw.team.Absent?
    ensures p.target.None? <==> raw.target.Absent?
    ensures p.ytdTarget.None? <==> raw.ytdTarget.Absent?
    ensures p.qualifiedInquiries.None? <==> raw.qualifiedInquiries.Absent?
    ensures p.newRegister.None? <==> raw.newRegister.Absent?
    ensures p.newDeposit.None? <==> raw.newDeposit.Absent?
    ensures p.newDepositShipOk.None? <==> raw.newDepositShipOk.Absent?
    ensures p.strategic.None? <==> raw.strategic.Absent?
    ensures p.retention.None? <==> raw.retention.Absent?
    ensures p.upsell.None? <==> raw.upsell.Absent?
    ensures p.notes.None? <==> raw.notes.Absent?
    ensures raw.date.Given? ==> p.date == Some(raw.date.value)
    ensures raw.team.Given? ==> p.team == Some(raw.team.value)
    ensures raw.notes.Given? ==> p.notes == Some(Some(raw.notes.value))
    ensures raw.notes.Null? ==> p.notes == Some(None)
    ensures CoercesTo(raw.target, p.target) && CoercesTo(raw.ytdTarget, p.ytdTarget)
    ensures CoercesTo(raw.qualifiedInquiries, p.qualifiedInquiries) && CoercesTo(raw.newRegister, p.newRegister)
    ensures CoercesTo(raw.newDeposit, p.newDeposit) && CoercesTo(raw.newDepositShipOk, p.newDepositShipOk)
    ensures CoercesTo(raw.strategic, p.strategic) && CoercesTo(raw.retention, p.retention)
    ensures CoercesTo(raw.upsell, p.upsell)
  {
    Patch(OptionalText(raw.date), OptionalText(raw.team), OptionalNumber(raw.target),
      OptionalNumber(raw.ytdTarget), OptionalNumber(raw.qualifiedInquiries), OptionalNumber(raw.newRegister),
      OptionalNumber(raw.newDeposit), OptionalNumber(raw.newDepositShipOk), OptionalNumber(raw.strategic),
      OptionalNumber(raw.retention), OptionalNumber(raw.upsell), NotesPatch(raw.notes))
  }

  /** The update body: the same rules with every field optional. */
  function ValidateUpdate(raw: RawInput): (r: Result<Patch, Issue>)
    ensures r.Success? <==> AllPass(raw, true)
    ensures r.Success? ==> r.value == PatchOf(raw)
    ensures r.Failure? ==> Some(r.error) == FirstIssue(raw, FieldOrder, true)
  {
    NoIssueMeansAllPass(raw, true);
    if AllPass(raw, true) then Success(PatchOf(raw))
    else Failure(FirstIssue(raw, FieldOrder, true).value)
  }

  // ---------------------------------------------------------------------------
  // Properties of validation

  /** A negative metric is never accepted, on create or on update. */
  lemma NegativeMetricRejected(raw: RawInput, f: Field)
    requires IsMetric(f) && MetricValue(raw, f).Given? && MetricValue(raw, f).value < 0.0
    ensures ValidateInsert(raw).Failure? && ValidateUpdate(raw).Failure?
  {
    assert CheckField(raw, f, false).Some? && CheckField(raw, f, true).Some?;
  }

  /** When exactly one field is wrong, the error names that field and its message. */
  lemma {:induction false} OnlyFailingFieldReported(raw: RawInput, f: Field, partial: bool)
    requires CheckField(raw, f, partial).Some?
    requires forall g :: g != f ==> CheckField(raw, g, partial).None?
    ensures var e := Issue(FieldName(f), Message(f, CheckField(raw, f, partial).value));
      if partial then ValidateUpdate(raw) == Failure(e) else ValidateInsert(raw) == Failure(e)
  {
    NoIssueMeansAllPass(raw, partial);
    var k :| 0 <= k < |FieldOrder| && CheckField(raw, FieldOrder[k], partial).Some? &&
      FirstIssue(raw, FieldOrder, partial).value ==
        Issue(FieldName(FieldOrder[k]), Message(FieldOrder[k], CheckField(raw, FieldOrder[k], partial).value));
    assert FieldOrder[k] == f;
  }

  /** A body accepted on create is accepted on update, and applying it as an update to the
      record it created changes nothing: update input is create input with every field optional. */
  lemma CreateBodyIsValidUpdate(raw: RawInput, id: int, createdAt: int)
    requires ValidateInsert(raw).Success?
    ensures ValidateUpdate(raw).Success?
    ensures var rec := NewRecord(id, ValidateInsert(raw).value, createdAt);
      ApplyPatch(rec, ValidateUpdate(raw).value) == rec
  {
    StrictPassIsPartialPass(raw);
    CreatedRecordIsFixedByItsPatch(raw, id, createdAt);
  }

  /** Every field that passes the create rules passes the update rules. */
  lemma StrictPassIsPartialPass(raw: RawInput)
    requires AllPass(raw, false)
    ensures AllPass(raw, true)
  {
  }

  /** The patch of an accepted create body writes back exactly what the insert stored. */
  lemma CreatedRecordIsFixedByItsPatch(raw: RawInput, id: int, createdAt: int)
    requires AllPass(raw, false)
    ensures ApplyPatch(NewRecord(id, InsertRowOf(raw), createdAt), PatchOf(raw)) == NewRecord(id, InsertRowOf(raw), createdAt)
  {
    StrictPassIsPartialPass(raw);
  }

  /** An empty body is a valid update that changes nothing. */
  lemma EmptyUpdateAccepted()
    ensures ValidateUpdate(RawInput(Absent, Absent, Absent, Absent, Absent, Absent, Absent, Absent, Absent, Absent, Absent, Absent))
      == Success(EmptyPatch)
  {
    var raw := RawInput(Absent, Absent, Absent, Absent, Absent, Absent, Absent, Absent, Absent, Absent, Absent, Absent);
    assert AllPass(raw, true);
    assert PatchOf(raw) == EmptyPatch;
  }

  /** A target of 0 passes, although its error message says "Target must be positive". */
  lemma ZeroTargetAccepted(raw: RawInput)
    requires raw.target == Given(0.0)
    requires forall g :: g != TargetField ==> CheckField(raw, g, false).None?
    ensures ValidateInsert(raw).Success? && ValidateInsert(raw).value.target == 0.0
  {
    assert AllPass(raw, false);
  }
}
