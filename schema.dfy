/**
 * The database schema the pages work against: the three closed enums, the
 * `Constants` table that lists their members, the row shapes the pages read,
 * and the insert shapes of the `approvals` and `budget_tracking` tables.
 *
 * An insert object travels to the store as a JSON object; it is modelled as a
 * `Record` (column name to JSON value) and `ParseApprovalInsert` /
 * `ParseBudgetInsert` decide whether such an object has the insert shape:
 * every required column present and non-null, every optional column either
 * absent, null where the column is nullable, or of the right type, and no
 * unknown column.
 */
module Schema {
  import opened Wrappers

  type Uuid = string
  type PatientId = string
  type UserId = string
  /** An ISO-8601 timestamp, kept opaque. */
  type Timestamp = string

  // ---------------------------------------------------------------------------
  // The three enums, their wire names and the `Constants` arrays
  // ---------------------------------------------------------------------------

  datatype AppRole = ScientificDirector | ValuesReviewer | ProjectManager

  datatype ApprovalStatus = Pending | Approved | Declined | ModificationRequested

  datatype PatientStatus = Pending | OnHold | Approved | TreatmentStarted | Completed | Declined

  /** The union members in declaration order. */
  const AllAppRoles: seq<AppRole> := [ScientificDirector, ValuesReviewer, ProjectManager]
  const AllApprovalStatuses: seq<ApprovalStatus> :=
    [ApprovalStatus.Pending, ApprovalStatus.Approved, ApprovalStatus.Declined, ModificationRequested]
  const AllPatientStatuses: seq<PatientStatus> :=
    [PatientStatus.Pending, OnHold, PatientStatus.Approved, TreatmentStarted, Completed, PatientStatus.Declined]

  /** `Constants.public.Enums`, as the strings the store exchanges. */
  const AppRoleConstants: seq<string> := ["scientific_director", "values_reviewer", "project_manager"]
  const ApprovalStatusConstants: seq<string> := ["pending", "approved", "declined", "modification_requested"]
  const PatientStatusConstants: seq<string> :=
    ["pending", "on_hold", "approved", "treatment_started", "completed", "declined"]

  function AppRoleName(r: AppRole): string {
    match r
    case ScientificDirector => "scientific_director"
    case ValuesReviewer => "values_reviewer"
    case ProjectManager => "project_manager"
  }

  function ApprovalStatusName(s: ApprovalStatus): string {
    match s
    case Pending => "pending"
    case Approved => "approved"
    case Declined => "declined"
    case ModificationRequested => "modification_requested"
  }

  function PatientStatusName(s: PatientStatus): string {
    match s
    case Pending => "pending"
    case OnHold => "on_hold"
    case Approved => "approved"
    case TreatmentStarted => "treatment_started"
    case Completed => "completed"
    case Declined => "declined"
  }

  /** The role a wire string names; `None` for every string outside the closed set. */
  function ParseAppRole(s: string): (r: Option<AppRole>)
    ensures r.Some? ==> AppRoleName(r.value) == s
    ensures r.None? ==> forall x :: AppRoleName(x) != s
  {
    if s == "scientific_director" then Some(ScientificDirector)
    else if s == "values_reviewer" then Some(ValuesReviewer)
    else if s == "project_manager" then Some(ProjectManager)
    else None
  }

  function ParseApprovalStatus(s: string): (r: Option<ApprovalStatus>)
    ensures r.Some? ==> ApprovalStatusName(r.value) == s
    ensures r.None? ==> forall x :: ApprovalStatusName(x) != s
  {
    if s == "pending" then Some(ApprovalStatus.Pending)
    else if s == "approved" then Some(ApprovalStatus.Approved)
    else if s == "declined" then Some(ApprovalStatus.Declined)
    else if s == "modification_requested" then Some(ModificationRequested)
    else None
  }

  function ParsePatientStatus(s: string): (r: Option<PatientStatus>)
    ensures r.Some? ==> PatientStatusName(r.value) == s
    ensures r.None? ==> forall x :: PatientStatusName(x) != s
  {
    if s == "pending" then Some(PatientStatus.Pending)
    else if s == "on_hold" then Some(OnHold)
    else if s == "approved" then Some(PatientStatus.Approved)
    else if s == "treatment_started" then Some(TreatmentStarted)
    else if s == "completed" then Some(Completed)
    else if s == "declined" then Some(PatientStatus.Declined)
    else None
  }

  /** Every role has its own wire name and reads back as itself. */
  lemma AppRoleNamesRoundTrip(r: AppRole, q: AppRole)
    ensures ParseAppRole(AppRoleName(r)) == Some(r)
    ensures AppRoleName(r) == AppRoleName(q) ==> r == q
  {
  }

  lemma ApprovalStatusNamesRoundTrip(s: ApprovalStatus, t: ApprovalStatus)
    ensures ParseApprovalStatus(ApprovalStatusName(s)) == Some(s)
    ensures ApprovalStatusName(s) == ApprovalStatusName(t) ==> s == t
  {
  }

  lemma PatientStatusNamesRoundTrip(s: PatientStatus, t: PatientStatus)
    ensures ParsePatientStatus(PatientStatusName(s)) == Some(s)
    ensures PatientStatusName(s) == PatientStatusName(t) ==> s == t
  {
  }

  /** `Constants.public.Enums.app_role` names each role exactly once, in declaration order. */
  lemma AppRoleConstantsExact()
    ensures |AppRoleConstants| == |AllAppRoles|
    ensures forall i :: 0 <= i < |AllAppRoles| ==> AppRoleConstants[i] == AppRoleName(AllAppRoles[i])
    ensures forall r: AppRole :: r in AllAppRoles
    ensures forall i, j :: 0 <= i < j < |AppRoleConstants| ==> AppRoleConstants[i] != AppRoleConstants[j]
  {
    forall r: AppRole ensures r in AllAppRoles {
      match r
      case ScientificDirector =>
      case ValuesReviewer =>
      case ProjectManager =>
    }
  }

  lemma ApprovalStatusConstantsExact()
    ensures |ApprovalStatusConstants| == |AllApprovalStatuses|
    ensures forall i :: 0 <= i < |AllApprovalStatuses| ==>
      ApprovalStatusConstants[i] == ApprovalStatusName(AllApprovalStatuses[i])
    ensures forall s: ApprovalStatus :: s in AllApprovalStatuses
    ensures forall i, j :: 0 <= i < j < |ApprovalStatusConstants| ==>
      ApprovalStatusConstants[i] != ApprovalStatusConstants[j]
  {
    forall s: ApprovalStatus ensures s in AllApprovalStatuses {
      match s
      case Pending =>
      case Approved =>
      case Declined =>
      case ModificationRequested =>
    }
  }

  lemma PatientStatusConstantsExact()
    ensures |PatientStatusConstants| == |AllPatientStatuses|
    ensures forall i :: 0 <= i < |AllPatientStatuses| ==>
      PatientStatusConstants[i] == PatientStatusName(AllPatientStatuses[i])
    ensures forall s: PatientStatus :: s in AllPatientStatuses
    ensures forall i, j :: 0 <= i < j < |PatientStatusConstants| ==>
      PatientStatusConstants[i] != PatientStatusConstants[j]
  {
    forall s: PatientStatus ensures s in AllPatientStatuses {
      match s
      case Pending =>
      case OnHold =>
      case Approved =>
      case TreatmentStarted =>
      case Completed =>
      case Declined =>
    }
  }

  // ---------------------------------------------------------------------------
  // Rows as the pages read them
  // ---------------------------------------------------------------------------

  /** A row of `approvals`; `None` in an `Option` column is SQL null. */
  datatype ApprovalRow = ApprovalRow(
    createdAt: Option<Timestamp>,
    id: Uuid,
    notes: Option<string>,
    patientId: PatientId,
    reviewedAt: Option<Timestamp>,
    reviewerId: UserId,
    reviewerRole: AppRole,
    status: ApprovalStatus)

  /** A row of `budget_tracking`; amounts are whole currency units. */
  datatype BudgetRow = BudgetRow(
    allocatedBudget: int,
    createdAt: Option<Timestamp>,
    fiscalYear: int,
    id: Uuid,
    spentBudget: Option<int>,
    updatedAt: Option<Timestamp>)

  /** The columns of a `patients` row that the modelled pages use. */
  datatype Patient = Patient(
    id: PatientId,
    firstName: string,
    lastName: string,
    email: string,
    pdcNumber: string,
    clinicName: string,
    status: PatientStatus)

  // ---------------------------------------------------------------------------
  // Insert objects
  // ---------------------------------------------------------------------------

  /** A JSON value as it appears in an insert object. */
  datatype Value = Text(text: string) | Number(number: int) | JsonNull

  /** The column names that occur in the `approvals` and `budget_tracking` insert objects. */
  datatype Column =
    | CreatedAt | Id | Notes | PatientIdColumn | ReviewedAt | ReviewerId | ReviewerRole | Status
    | AllocatedBudget | FiscalYear | SpentBudget | UpdatedAt

  function ColumnName(c: Column): string {
    match c
    case CreatedAt => "created_at"
    case Id => "id"
    case Notes => "notes"
    case PatientIdColumn => "patient_id"
    case ReviewedAt => "reviewed_at"
    case ReviewerId => "reviewer_id"
    case ReviewerRole => "reviewer_role"
    case Status => "status"
    case AllocatedBudget => "allocated_budget"
    case FiscalYear => "fiscal_year"
    case SpentBudget => "spent_budget"
    case UpdatedAt => "updated_at"
  }

  /** A JSON object: column to value. A key that is not there is `undefined`. */
  type Record = map<Column, Value>

  /** A column written `key?: T | null`: left out, explicitly null, or given. */
  datatype Optional<T> = Absent | Null | Present(value: T)

  /** A required, non-null text column. */
  function RequiredText(rec: Record, key: Column): Option<string> {
    if key in rec && rec[key].Text? then Some(rec[key].text) else None
  }

  /** A required, non-null number column. */
  function RequiredNumber(rec: Record, key: Column): Option<int> {
    if key in rec && rec[key].Number? then Some(rec[key].number) else None
  }

  /** A required `app_role` column, sent as its wire name. */
  function RequiredRole(rec: Record, key: Column): Option<AppRole> {
    if key in rec && rec[key].Text? then ParseAppRole(rec[key].text) else None
  }

  /**
   * An optional text column; the outer `None` means the value is not text, or
   * is null where the column is not nullable.
   */
  function OptionalText(rec: Record, key: Column, nullable: bool): Option<Optional<string>> {
    if key !in rec then Some(Absent)
    else match rec[key]
      case JsonNull => if nullable then Some(Null) else None
      case Text(t) => Some(Present(t))
      case Number(_) => None
  }

  /** An optional, nullable number column. */
  function OptionalNumber(rec: Record, key: Column): Option<Optional<int>> {
    if key !in rec then Some(Absent)
    else match rec[key]
      case JsonNull => Some(Null)
      case Number(n) => Some(Present(n))
      case Text(_) => None
  }

  /** An optional, non-nullable `approval_status` column. */
  function OptionalApprovalStatus(rec: Record, key: Column): Option<Optional<ApprovalStatus>> {
    if key !in rec then Some(Absent)
    else if rec[key].Text? then
      match ParseApprovalStatus(rec[key].text)
      case Some(s) => Some(Present(s))
      case None => None
    else None
  }

  function TextValue(f: Optional<string>): Optional<Value> {
    match f
    case Absent => Absent
    case Null => Null
    case Present(t) => Present(Text(t))
  }

  function NumberValue(f: Optional<int>): Optional<Value> {
    match f
    case Absent => Absent
    case Null => Null
    case Present(n) => Present(Number(n))
  }

  function ApprovalStatusValue(f: Optional<ApprovalStatus>): Optional<Value> {
    match f
    case Absent => Absent
    case Null => Null
    case Present(s) => Present(Text(ApprovalStatusName(s)))
  }

  /** The JSON value an optional column contributes, if any: an absent column adds no key. */
  function Entry(f: Optional<Value>): Option<Value> {
    match f
    case Absent => None
    case Null => Some(JsonNull)
    case Present(v) => Some(v)
  }

  /** `approvals.Insert`: patient_id, reviewer_id and reviewer_role are required. */
  datatype ApprovalInsert = ApprovalInsert(
    createdAt: Optional<Timestamp>,
    id: Optional<Uuid>,
    notes: Optional<string>,
    patientId: PatientId,
    reviewedAt: Optional<Timestamp>,
    reviewerId: UserId,
    reviewerRole: AppRole,
    status: Optional<ApprovalStatus>)

  /** `id?: string` and `status?: approval_status` may be left out but are never null. */
  predicate WellTypedApprovalInsert(ins: ApprovalInsert) {
    !ins.id.Null? && !ins.status.Null?
  }

  const ApprovalColumns: set<Column> :=
    {CreatedAt, Id, Notes, PatientIdColumn, ReviewedAt, ReviewerId, ReviewerRole, Status}
  const ApprovalRequiredColumns: set<Column> := {PatientIdColumn, ReviewerId, ReviewerRole}

  function ParseApprovalInsert(rec: Record): (r: Option<ApprovalInsert>)
    ensures r.Some? ==> WellTypedApprovalInsert(r.value)
    ensures r.Some? ==> ApprovalRequiredColumns <= rec.Keys <= ApprovalColumns
  {
    var createdAt := OptionalText(rec, CreatedAt, true);
    var id := OptionalText(rec, Id, false);
    var notes := OptionalText(rec, Notes, true);
    var patientId := RequiredText(rec, PatientIdColumn);
    var reviewedAt := OptionalText(rec, ReviewedAt, true);
    var reviewerId := RequiredText(rec, ReviewerId);
    var reviewerRole := RequiredRole(rec, ReviewerRole);
    var status := OptionalApprovalStatus(rec, Status);
    if rec.Keys <= ApprovalColumns && createdAt.Some? && id.Some? && notes.Some? && patientId.Some?
      && reviewedAt.Some? && reviewerId.Some? && reviewerRole.Some? && status.Some?
    then
      Some(ApprovalInsert(createdAt.value, id.value, notes.value, patientId.value,
                          reviewedAt.value, reviewerId.value, reviewerRole.value, status.value))
    else
      None
  }

  /** The value `WriteApprovalInsert` puts under column `c`. */
  function ApprovalEntry(ins: ApprovalInsert, c: Column): Option<Value> {
    match c
    case CreatedAt => Entry(TextValue(ins.createdAt))
    case Id => Entry(TextValue(ins.id))
    case Notes => Entry(TextValue(ins.notes))
    case PatientIdColumn => Some(Text(ins.patientId))
    case ReviewedAt => Entry(TextValue(ins.reviewedAt))
    case ReviewerId => Some(Text(ins.reviewerId))
    case ReviewerRole => Some(Text(AppRoleName(ins.reviewerRole)))
    case Status => Entry(ApprovalStatusValue(ins.status))
    case _ => None
  }

  /** The JSON object that carries an approval insert to the store. */
  function WriteApprovalInsert(ins: ApprovalInsert): Record {
    map c | c in ApprovalColumns && ApprovalEntry(ins, c).Some? :: ApprovalEntry(ins, c).value
  }

  /** Every well-typed approval insert survives the trip through its JSON object. */
  lemma ApprovalInsertRoundTrip(ins: ApprovalInsert)
    requires WellTypedApprovalInsert(ins)
    ensures ParseApprovalInsert(WriteApprovalInsert(ins)) == Some(ins)
  {
    var rec := WriteApprovalInsert(ins);
    AppRoleNamesRoundTrip(ins.reviewerRole, ins.reviewerRole);
    if ins.status.Present? {
      ApprovalStatusNamesRoundTrip(ins.status.value, ins.status.value);
    }
    assert OptionalText(rec, CreatedAt, true) == Some(ins.createdAt);
    assert OptionalText(rec, Id, false) == Some(ins.id);
    assert OptionalText(rec, Notes, true) == Some(ins.notes);
    assert RequiredText(rec, PatientIdColumn) == Some(ins.patientId);
    assert OptionalText(rec, ReviewedAt, true) == Some(ins.reviewedAt);
    assert RequiredText(rec, ReviewerId) == Some(ins.reviewerId);
    assert RequiredRole(rec, ReviewerRole) == Some(ins.reviewerRole);
    assert OptionalApprovalStatus(rec, Status) == Some(ins.status);
  }

  /** Under each column, the accepted object holds exactly what its insert writes. */
  lemma ApprovalEntryOfParsed(rec: Record, c: Column)
    requires ParseApprovalInsert(rec).Some?
    ensures ApprovalEntry(ParseApprovalInsert(rec).value, c) == (if c in rec then Some(rec[c]) else None)
  {
    var ins := ParseApprovalInsert(rec).value;
    match c
    case ReviewerRole =>
      AppRoleNamesRoundTrip(ins.reviewerRole, ins.reviewerRole);
    case Status =>
      if ins.status.Present? {
        ApprovalStatusNamesRoundTrip(ins.status.value, ins.status.value);
      }
    case _ =>
  }

  /** An accepted JSON object is exactly the object its insert writes back. */
  lemma ApprovalInsertCanonical(rec: Record)
    requires ParseApprovalInsert(rec).Some?
    ensures WriteApprovalInsert(ParseApprovalInsert(rec).value) == rec
  {
    var ins := ParseApprovalInsert(rec).value;
    var back := WriteApprovalInsert(ins);
    forall c: Column ensures (c in back) == (c in rec) && (c in rec ==> back[c] == rec[c]) {
      ApprovalEntryOfParsed(rec, c);
    }
  }

  /** The three required columns alone make a valid insert; every other column is optional. */
  lemma ApprovalInsertMinimal(patientId: PatientId, reviewerId: UserId, role: AppRole)
    ensures ParseApprovalInsert(map[PatientIdColumn := Text(patientId), ReviewerId := Text(reviewerId),
                                    ReviewerRole := Text(AppRoleName(role))])
         == Some(ApprovalInsert(Absent, Absent, Absent, patientId, Absent, reviewerId, role, Absent))
  {
    AppRoleNamesRoundTrip(role, role);
  }

  /** `budget_tracking.Insert`: allocated_budget and fiscal_year are required. */
  datatype BudgetInsert = BudgetInsert(
    allocatedBudget: int,
    createdAt: Optional<Timestamp>,
    fiscalYear: int,
    id: Optional<Uuid>,
    spentBudget: Optional<int>,
    updatedAt: Optional<Timestamp>)

  predicate WellTypedBudgetInsert(ins: BudgetInsert) {
    !ins.id.Null?
  }

  const BudgetColumns: set<Column> :=
    {AllocatedBudget, CreatedAt, FiscalYear, Id, SpentBudget, UpdatedAt}
  const BudgetRequiredColumns: set<Column> := {AllocatedBudget, FiscalYear}

  function ParseBudgetInsert(rec: Record): (r: Option<BudgetInsert>)
    ensures r.Some? ==> WellTypedBudgetInsert(r.value)
    ensures r.Some? ==> BudgetRequiredColumns <= rec.Keys <= BudgetColumns
  {
    var allocatedCol := RequiredNumber(rec, AllocatedBudget);
    var createdAt := OptionalText(rec, CreatedAt, true);
    var year := RequiredNumber(rec, FiscalYear);
    var id := OptionalText(rec, Id, false);
    var spent := OptionalNumber(rec, SpentBudget);
    var updatedAt := OptionalText(rec, UpdatedAt, true);
    if rec.Keys <= BudgetColumns && allocatedCol.Some? && createdAt.Some? && year.Some? && id.Some?
      && spent.Some? && updatedAt.Some?
    then
      Some(BudgetInsert(allocatedCol.value, createdAt.value, year.value, id.value, spent.value, updatedAt.value))
    else
      None
  }

  /** The value `WriteBudgetInsert` puts under column `c`. */
  function BudgetEntry(ins: BudgetInsert, c: Column): Option<Value> {
    match c
    case AllocatedBudget => Some(Number(ins.allocatedBudget))
    case CreatedAt => Entry(TextValue(ins.createdAt))
    case FiscalYear => Some(Number(ins.fiscalYear))
    case Id => Entry(TextValue(ins.id))
    case SpentBudget => Entry(NumberValue(ins.spentBudget))
    case UpdatedAt => Entry(TextValue(ins.updatedAt))
    case _ => None
  }

  /** The JSON object that carries a budget insert to the store. */
  function WriteBudgetInsert(ins: BudgetInsert): Record {
    map c | c in BudgetColumns && BudgetEntry(ins, c).Some? :: BudgetEntry(ins, c).value
  }

  lemma BudgetInsertRoundTrip(ins: BudgetInsert)
    requires WellTypedBudgetInsert(ins)
    ensures ParseBudgetInsert(WriteBudgetInsert(ins)) == Some(ins)
  {
    var rec := WriteBudgetInsert(ins);
    assert RequiredNumber(rec, AllocatedBudget) == Some(ins.allocatedBudget);
    assert OptionalText(rec, CreatedAt, true) == Some(ins.createdAt);
    assert RequiredNumber(rec, FiscalYear) == Some(ins.fiscalYear);
    assert OptionalText(rec, Id, false) == Some(ins.id);
    assert OptionalNumber(rec, SpentBudget) == Some(ins.spentBudget);
    assert OptionalText(rec, UpdatedAt, true) == Some(ins.updatedAt);
  }

  lemma BudgetInsertCanonical(rec: Record)
    requires ParseBudgetInsert(rec).Some?
    ensures WriteBudgetInsert(ParseBudgetInsert(rec).value) == rec
  {
    var ins := ParseBudgetInsert(rec).value;
    var back := WriteBudgetInsert(ins);
    forall c: Column ensures (c in back) == (c in rec) && (c in rec ==> back[c] == rec[c]) {
    }
  }

  /** `spent_budget` may be left out or sent as null; both are accepted. */
  lemma BudgetSpentOptional(amount: int, year: int)
    ensures ParseBudgetInsert(map[AllocatedBudget := Number(amount), FiscalYear := Number(year)])
         == Some(BudgetInsert(amount, Absent, year, Absent, Absent, Absent))
    ensures ParseBudgetInsert(map[AllocatedBudget := Number(amount), FiscalYear := Number(year),
                                  SpentBudget := JsonNull])
         == Some(BudgetInsert(amount, Absent, year, Absent, Null, Absent))
  {
  }
}
