/**
 * The Approvals page: a reviewer's queue of pending patients and the handler
 * that records one reviewer decision.
 *
 * The page works on two store tables, `patients` (keyed by id) and the
 * append-only `approvals` log, plus its own form state (the notes text, the
 * modification dialog and the selected patient). The store's answers (whether
 * a write fails, the id and creation time it gives a new row) and the browser
 * clock are parameters.
 */
module Approvals {
  import opened Wrappers
  import opened Schema
  import opened Seqs

  /** The three decisions the page's buttons submit: any approval status but `pending`. */
  type Decision = s: ApprovalStatus | s != ApprovalStatus.Pending witness ApprovalStatus.Approved

  /** What the store answers to the handler's two writes. */
  datatype StoreReply = StoreReply(insertFails: bool, updateFails: bool, newId: Uuid, createdAt: Timestamp)

  datatype SubmitOutcome =
    | MissingDeclineReason   // a decline without notes, refused before any write
    | InsertFailed           // the store refused the approval row
    | Submitted

  /** `canReview`: only the two reviewing roles may use the page. */
  function CanReview(role: Option<AppRole>): bool {
    role == Some(ScientificDirector) || role == Some(ValuesReviewer)
  }

  /** The reviewing roles are exactly the roles other than the administrative one. */
  lemma CanReviewExactlyReviewers(role: Option<AppRole>)
    ensures CanReview(role) <==> role.Some? && role.value != ProjectManager
  {
    match role
    case None =>
    case Some(r) =>
      match r
      case ScientificDirector =>
      case ValuesReviewer =>
      case ProjectManager =>
  }

  /**
   * The JSON object `handleApproval` inserts. A missing user drops `reviewer_id`
   * (`user?.id` is undefined); a missing role is sent as null; empty notes are
   * sent as null (`notes || null`).
   */
  function SubmissionRecord(patientId: PatientId, userId: Option<UserId>, userRole: Option<AppRole>,
                            status: Decision, notes: string, reviewedAt: Timestamp): Record
  {
    var rec := map[PatientIdColumn := Text(patientId),
                   ReviewerRole := (if userRole.Some? then Text(AppRoleName(userRole.value)) else JsonNull),
                   Status := Text(ApprovalStatusName(status)),
                   Notes := (if notes == "" then JsonNull else Text(notes)),
                   ReviewedAt := Text(reviewedAt)];
    if userId.Some? then rec[ReviewerId := Text(userId.value)] else rec
  }

  /**
   * The submitted object has the approval insert shape exactly when the caller
   * is signed in and has a role, and it then carries the patient, the caller's
   * id and role, the chosen status, the notes (null when empty) and the time.
   */
  lemma SubmissionRecordShape(patientId: PatientId, userId: Option<UserId>, userRole: Option<AppRole>,
                              status: Decision, notes: string, reviewedAt: Timestamp)
    ensures ParseApprovalInsert(SubmissionRecord(patientId, userId, userRole, status, notes, reviewedAt))
         == if userId.Some? && userRole.Some? then
              Some(ApprovalInsert(Absent, Absent, if notes == "" then Null else Present(notes), patientId,
                                  Present(reviewedAt), userId.value, userRole.value, Present(status)))
            else None
  {
    var rec := SubmissionRecord(patientId, userId, userRole, status, notes, reviewedAt);
    ApprovalStatusNamesRoundTrip(status, status);
    if userRole.Some? {
      AppRoleNamesRoundTrip(userRole.value, userRole.value);
    }
    if userId.Some? && userRole.Some? {
      assert rec.Keys <= ApprovalColumns;
      var st: ApprovalStatus := status;
      assert OptionalApprovalStatus(rec, Status) == Some(Present(st));
    } else if userId.None? {
      assert ReviewerId !in rec;
    } else {
      assert rec[ReviewerRole] == JsonNull;
    }
  }

  /**
   * The row the store keeps for an accepted insert. Columns the insert leaves
   * out take the store's defaults: the generated id, the insertion time, and
   * status `pending`.
   */
  function StoredApproval(ins: ApprovalInsert, newId: Uuid, createdAt: Timestamp): (row: ApprovalRow)
    requires WellTypedApprovalInsert(ins)
    ensures row.patientId == ins.patientId && row.reviewerId == ins.reviewerId
    ensures row.reviewerRole == ins.reviewerRole
    ensures ins.status.Present? ==> row.status == ins.status.value
    ensures row.notes.Some? <==> ins.notes.Present?
    ensures ins.notes.Present? ==> row.notes.value == ins.notes.value
  {
    ApprovalRow(
      createdAt := match ins.createdAt
        case Absent => Some(createdAt)
        case Null => None
        case Present(t) => Some(t),
      id := if ins.id.Present? then ins.id.value else newId,
      notes := if ins.notes.Present? then Some(ins.notes.value) else None,
      patientId := ins.patientId,
      reviewedAt := if ins.reviewedAt.Present? then Some(ins.reviewedAt.value) else None,
      reviewerId := ins.reviewerId,
      reviewerRole := ins.reviewerRole,
      status := if ins.status.Present? then ins.status.value else ApprovalStatus.Pending)
  }

  /**
   * The row a successful submission adds: the patient, the caller's id and
   * role, the decision, the notes (null when empty), the browser time, and
   * the id and creation time the store assigns.
   */
  function SubmittedRow(patientId: PatientId, reviewerId: UserId, role: AppRole, status: Decision,
                        notes: string, now: Timestamp, reply: StoreReply): ApprovalRow
  {
    ApprovalRow(Some(reply.createdAt), reply.newId, if notes == "" then None else Some(notes),
                patientId, Some(now), reviewerId, role, status)
  }

  /** The submitted row is what the store makes of the page's insert object. */
  lemma SubmittedRowStored(patientId: PatientId, reviewerId: UserId, role: AppRole, status: Decision,
                           notes: string, now: Timestamp, reply: StoreReply)
    ensures var ins := ParseApprovalInsert(SubmissionRecord(patientId, Some(reviewerId), Some(role), status, notes, now));
            && ins.Some?
            && StoredApproval(ins.value, reply.newId, reply.createdAt)
               == SubmittedRow(patientId, reviewerId, role, status, notes, now, reply)
  {
    SubmissionRecordShape(patientId, Some(reviewerId), Some(role), status, notes, now);
  }

  /** The store's update `set status = 'on_hold' where id = patientId`. */
  function PutOnHold(patients: map<PatientId, Patient>, patientId: PatientId): (r: map<PatientId, Patient>)
    ensures r.Keys == patients.Keys
    ensures patientId in patients ==> r[patientId] == patients[patientId].(status := OnHold)
    ensures forall id :: id in patients && id != patientId ==> r[id] == patients[id]
  {
    if patientId in patients then patients[patientId := patients[patientId].(status := OnHold)] else patients
  }

  // ---------------------------------------------------------------------------
  // The review queue
  // ---------------------------------------------------------------------------

  /**
   * `hasMyApproval`: the caller's role has already given this patient a
   * decision. A caller without a role never matches (`reviewer_role === null`
   * is false for every row).
   */
  predicate HasMyApproval(approvals: seq<ApprovalRow>, patientId: PatientId, role: Option<AppRole>) {
    exists i | 0 <= i < |approvals| ::
      approvals[i].patientId == patientId && Some(approvals[i].reviewerRole) == role
      && approvals[i].status != ApprovalStatus.Pending
  }

  /** The filter over the store's pending rows that builds the queue. */
  function ReviewQueue(rows: seq<Patient>, approvals: seq<ApprovalRow>, role: Option<AppRole>): seq<Patient> {
    Filter(rows, (p: Patient) => !HasMyApproval(approvals, p.id, role))
  }

  /** `rows` is an answer of `select * from patients where status = 'pending'`, in any order. */
  ghost predicate IsPendingSelect(rows: seq<Patient>, patients: map<PatientId, Patient>) {
    forall p :: p in rows <==> p.id in patients && patients[p.id] == p && p.status == PatientStatus.Pending
  }

  /** A patient is queued for a role iff it is a stored, pending patient the role has not decided on. */
  ghost predicate Queued(patients: map<PatientId, Patient>, approvals: seq<ApprovalRow>, role: Option<AppRole>, p: Patient) {
    p.id in patients && patients[p.id] == p && p.status == PatientStatus.Pending && !HasMyApproval(approvals, p.id, role)
  }

  lemma ReviewQueueExact(rows: seq<Patient>, patients: map<PatientId, Patient>,
                         approvals: seq<ApprovalRow>, role: Option<AppRole>, p: Patient)
    requires IsPendingSelect(rows, patients)
    ensures p in ReviewQueue(rows, approvals, role) <==> Queued(patients, approvals, role, p)
    ensures IsSubsequence(ReviewQueue(rows, approvals, role), rows)
  {
  }

  /** Once a role has recorded a decision on a patient, that patient leaves the role's queue. */
  lemma DecisionLeavesOwnQueue(rows: seq<Patient>, approvals: seq<ApprovalRow>, row: ApprovalRow)
    requires row.status != ApprovalStatus.Pending
    ensures forall p :: p in ReviewQueue(rows, approvals + [row], Some(row.reviewerRole)) ==> p.id != row.patientId
  {
    var log := approvals + [row];
    assert log[|approvals|] == row;
    assert HasMyApproval(log, row.patientId, Some(row.reviewerRole));
  }

  /** A decision by one role leaves every other role's queue as it was. */
  lemma DecisionKeepsOtherQueues(rows: seq<Patient>, approvals: seq<ApprovalRow>, row: ApprovalRow, role: Option<AppRole>)
    requires role != Some(row.reviewerRole)
    ensures ReviewQueue(rows, approvals + [row], role) == ReviewQueue(rows, approvals, role)
  {
    var log := approvals + [row];
    forall p: Patient ensures HasMyApproval(log, p.id, role) == HasMyApproval(approvals, p.id, role) {
      if HasMyApproval(log, p.id, role) {
        var i :| 0 <= i < |log| && log[i].patientId == p.id && Some(log[i].reviewerRole) == role
                 && log[i].status != ApprovalStatus.Pending;
        assert i < |approvals| && log[i] == approvals[i];
      }
      if HasMyApproval(approvals, p.id, role) {
        var i :| 0 <= i < |approvals| && approvals[i].patientId == p.id && Some(approvals[i].reviewerRole) == role
                 && approvals[i].status != ApprovalStatus.Pending;
        assert log[i] == approvals[i];
      }
    }
    FilterCongruent(rows, (p: Patient) => !HasMyApproval(log, p.id, role),
                          (p: Patient) => !HasMyApproval(approvals, p.id, role));
  }

  /** A patient put on hold is in nobody's queue: the queue only lists pending patients. */
  lemma OnHoldLeavesEveryQueue(patients: map<PatientId, Patient>, approvals: seq<ApprovalRow>,
                               role: Option<AppRole>, patientId: PatientId, p: Patient)
    requires patientId in patients && p.id == patientId
    ensures !Queued(PutOnHold(patients, patientId), approvals, role, p)
  {
  }

  // ---------------------------------------------------------------------------
  // The page
  // ---------------------------------------------------------------------------

  class ApprovalsPage {
    /** The signed-in user and role (`useAuth`); either may be missing. */
    const userId: Option<UserId>
    const userRole: Option<AppRole>

    /** The store's tables, as this page sees them. */
    var patients: map<PatientId, Patient>
    var approvals: seq<ApprovalRow>

    /** Page state. */
    var pendingPatients: seq<Patient>
    var selectedPatient: Option<Patient>
    var notes: string
    var isDialogOpen: bool

    /**
     * The store's constraints as the page sees them: patients are keyed by
     * their id, and every approval refers to a stored patient
     * (approvals_patient_id_fkey). The page's writes keep them; no other
     * contract relies on them.
     */
    ghost predicate Valid()
      reads this
    {
      && (forall id :: id in patients ==> patients[id].id == id)
      && (forall i :: 0 <= i < |approvals| ==> approvals[i].patientId in patients)
    }

    constructor (userId: Option<UserId>, userRole: Option<AppRole>,
                 patients: map<PatientId, Patient>, approvals: seq<ApprovalRow>)
      requires forall id :: id in patients ==> patients[id].id == id
      requires forall i :: 0 <= i < |approvals| ==> approvals[i].patientId in patients
      ensures Valid()
      ensures this.userId == userId && this.userRole == userRole
      ensures this.patients == patients && this.approvals == approvals
      ensures pendingPatients == [] && selectedPatient == None && notes == "" && !isDialogOpen
    {
      this.userId := userId;
      this.userRole := userRole;
      this.patients := patients;
      this.approvals := approvals;
      pendingPatients := [];
      selectedPatient := None;
      notes := "";
      isDialogOpen := false;
    }

    /** The notes text area's `onChange`, and the decline dialog's Cancel (which sets it to ""). */
    method SetNotes(text: string)
      modifies this`notes
      ensures notes == text
    {
      notes := text;
    }

    /** The Request Modification button: select the patient and open its dialog. */
    method OpenModificationDialog(p: Patient)
      modifies this`selectedPatient, this`isDialogOpen
      ensures selectedPatient == Some(p) && isDialogOpen
    {
      selectedPatient := Some(p);
      isDialogOpen := true;
    }

    /** The dialog's Cancel button and `onOpenChange`. */
    method SetDialogOpen(open: bool)
      modifies this`isDialogOpen
      ensures isDialogOpen == open
    {
      isDialogOpen := open;
    }

    /**
     * `fetchPendingPatients`: `data` is the store's answer to the pending
     * select, `None` when the query fails (then the queue is empty).
     */
    method FetchPendingPatients(data: Option<seq<Patient>>)
      modifies this`pendingPatients
      ensures pendingPatients == match data
                                 case None => []
                                 case Some(rows) => ReviewQueue(rows, approvals, userRole)
      ensures data.Some? && IsPendingSelect(data.value, patients) ==>
        forall p :: p in pendingPatients <==> Queued(patients, approvals, userRole, p)
    {
      match data
      case None =>
        pendingPatients := [];
      case Some(rows) =>
        pendingPatients := ReviewQueue(rows, approvals, userRole);
    }

    /**
     * The store writes of a submission: insert the approval row, then, on a
     * modification request, put the patient on hold. The insert fails when
     * the object lacks a reviewer id or role, when no patient has that id
     * (approvals_patient_id_fkey), or on any other store error; the update's
     * own error is not looked at.
     */
    method WriteDecision(patientId: PatientId, status: Decision, text: string, now: Timestamp, reply: StoreReply)
      returns (ok: bool)
      requires Valid()
      modifies this`patients, this`approvals
      ensures Valid()
      ensures ok <==> userId.Some? && userRole.Some? && patientId in old(patients) && !reply.insertFails
      ensures !ok ==> patients == old(patients) && approvals == old(approvals)
      ensures ok ==>
        && approvals == old(approvals) + [SubmittedRow(patientId, userId.value, userRole.value, status, text, now, reply)]
        && patients == (if status == ModificationRequested && !reply.updateFails
                        then PutOnHold(old(patients), patientId) else old(patients))
    {
      var rec := SubmissionRecord(patientId, userId, userRole, status, text, now);
      SubmissionRecordShape(patientId, userId, userRole, status, text, now);
      var ins := ParseApprovalInsert(rec);
      if ins.None? || patientId !in patients || reply.insertFails {
        return false;
      }
      SubmittedRowStored(patientId, userId.value, userRole.value, status, text, now, reply);
      approvals := approvals + [StoredApproval(ins.value, reply.newId, reply.createdAt)];
      if status == ModificationRequested && !reply.updateFails {
        patients := PutOnHold(patients, patientId);
      }
      ok := true;
    }

    /**
     * `handleApproval`. A decline needs notes; otherwise one approval row is
     * inserted, a modification request puts the patient on hold, the form is
     * reset and the queue is read again (`refetched` is the store's answer).
     * The caller's role is not checked here: the page hides the buttons
     * instead.
     */
    method HandleApproval(patientId: PatientId, status: Decision, now: Timestamp, reply: StoreReply,
                          refetched: Option<seq<Patient>>)
      returns (outcome: SubmitOutcome)
      requires Valid()
      modifies this`patients, this`approvals, this`pendingPatients, this`notes, this`isDialogOpen, this`selectedPatient
      ensures Valid()
      ensures outcome.MissingDeclineReason? <==> status == ApprovalStatus.Declined && old(notes) == ""
      ensures outcome.Submitted? <==>
        && !(status == ApprovalStatus.Declined && old(notes) == "")
        && userId.Some? && userRole.Some? && patientId in old(patients) && !reply.insertFails
      ensures !outcome.Submitted? ==>
        && patients == old(patients) && approvals == old(approvals) && pendingPatients == old(pendingPatients)
        && notes == old(notes) && isDialogOpen == old(isDialogOpen) && selectedPatient == old(selectedPatient)
      ensures outcome.Submitted? ==>
        && approvals == old(approvals) + [SubmittedRow(patientId, userId.value, userRole.value, status, old(notes), now, reply)]
        && patients == (if status == ModificationRequested && !reply.updateFails
                        then PutOnHold(old(patients), patientId) else old(patients))
        && notes == "" && !isDialogOpen && selectedPatient == None
        && pendingPatients == match refetched
                              case None => []
                              case Some(rows) => ReviewQueue(rows, approvals, userRole)
      ensures outcome.Submitted? ==> forall p :: p in pendingPatients ==> p.id != patientId
    {
      if status == ApprovalStatus.Declined && notes == "" {
        return MissingDeclineReason;
      }
      ghost var text := notes;
      var ok := WriteDecision(patientId, status, notes, now, reply);
      if !ok {
        return InsertFailed;
      }
      isDialogOpen := false;
      notes := "";
      selectedPatient := None;
      FetchPendingPatients(refetched);
      if refetched.Some? {
        ghost var row := SubmittedRow(patientId, userId.value, userRole.value, status, text, now, reply);
        assert approvals == old(approvals) + [row] && userRole == Some(row.reviewerRole);
        DecisionLeavesOwnQueue(refetched.value, old(approvals), row);
      }
      outcome := Submitted;
    }
  }
}
