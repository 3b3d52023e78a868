# smile-journey-manager: the review, dashboard, search and budget pages

This project models, in Dafny, the core of a clinic's patient-approval tool. The tool is a
React front end over a Supabase (Postgres) store. The modelled parts are:

- **Schema** (`schema.dfy`): the store's enumerations (`app_role`, `approval_status`,
  `patient_status`) and their wire names, and the `Constants` lists. It also holds the rows of
  `approvals`, `budget_tracking` and `patients`. The `Insert` shapes of `approvals` and
  `budget_tracking` appear as a parser from JSON objects and a writer back to them.
- **Approvals** (`approvals.dfy`): the review page.
  - A reviewer's queue holds the pending patients that this reviewer's role has not yet
    decided on.
  - `handleApproval` refuses a decline without notes.
  - Otherwise it inserts one approval row, and a modification request puts the patient
    on hold.
  - It then resets the form and reloads the queue.
  - The page is a class over the store's `patients` map, the append-only `approvals` log and
    the page's own state.
- **Dashboard** (`dashboard.dfy`): the four counters of `fetchStats`.
- **PatientSearch** (`patients.dfy`): the case-insensitive search over four patient columns,
  and the status badge colours.
- **Budget** (`budget.dfy`): the Budget page.
  - It loads the current fiscal year's `budget_tracking` row and shows what remains.
  - It lets a project manager overwrite the allocated amount.
  - The page is a class over the store's table and the page state.
- **Seqs** (`seqs.dfy`): `Array.prototype.filter`, with the facts the pages rely on. The
  result is an order-preserving subsequence that holds exactly the kept elements.
- **Wrappers** (`wrappers.dfy`): `Option`.

The store's answers are parameters of the operations that receive them:

- the rows a select returns;
- whether a write fails;
- the id and creation time a new row gets;
- the browser clock.

The pages do not enforce several rules:

- no role check inside `handleApproval` or `updateBudget` (the page only hides the buttons);
- no limit of one decision per role;
- no derived patient status from the decisions;
- no change to `spent_budget`.

The model does what the page code does, and proves what follows from that.

## Model

| member | source | states |
|---|---|---|
| Schema.AppRoleName | src/integrations/supabase/types.ts:239 | the wire name of each role; `AppRoleNamesRoundTrip` and `AppRoleConstantsExact` state that the names are distinct, read back, and match the constant list |
| Schema.ApprovalStatusName | src/integrations/supabase/types.ts:240-244 | the wire name of each approval status; `ApprovalStatusNamesRoundTrip` and `ApprovalStatusConstantsExact` state its meaning |
| Schema.PatientStatusName | src/integrations/supabase/types.ts:245-251 | the wire name of each patient status; `PatientStatusNamesRoundTrip` and `PatientStatusConstantsExact` state its meaning |
| Schema.ParseAppRole | src/integrations/supabase/types.ts:239 | a string parses to a role exactly when it is that role's wire name; every other string names no role |
| Schema.ParseApprovalStatus | src/integrations/supabase/types.ts:240-244 | a string parses to an approval status exactly when it is that status's wire name |
| Schema.ParsePatientStatus | src/integrations/supabase/types.ts:245-251 | a string parses to a patient status exactly when it is that status's wire name |
| Schema.AppRoleNamesRoundTrip | src/integrations/supabase/types.ts:239 | each role's wire name reads back as that role, and no two roles share a name |
| Schema.ApprovalStatusNamesRoundTrip | src/integrations/supabase/types.ts:240-244 | each approval status's name reads back as that status, and the names are distinct |
| Schema.PatientStatusNamesRoundTrip | src/integrations/supabase/types.ts:245-251 | each patient status's name reads back as that status, and the names are distinct |
| Schema.AppRoleConstantsExact | src/integrations/supabase/types.ts:379 | the `app_role` constant list names every role once, in declaration order, with no repeats |
| Schema.ApprovalStatusConstantsExact | src/integrations/supabase/types.ts:380-385 | the `approval_status` constant list names every status once, in order, with no repeats |
| Schema.PatientStatusConstantsExact | src/integrations/supabase/types.ts:386-393 | the `patient_status` constant list names every status once, in order, with no repeats |
| Schema.ParseApprovalInsert | src/integrations/supabase/types.ts:28-37 | an accepted object has every required column (patient_id, reviewer_id, reviewer_role) and no column outside the insert shape; id and status are never null |
| Schema.ApprovalInsertRoundTrip | src/integrations/supabase/types.ts:28-37 | every well-typed approval insert is read back unchanged from the object written for it |
| Schema.ApprovalEntryOfParsed | src/integrations/supabase/types.ts:28-37 | under every column, an accepted object holds exactly what its parsed insert writes |
| Schema.ApprovalInsertCanonical | src/integrations/supabase/types.ts:28-37 | an accepted object is exactly the object its parsed insert writes back |
| Schema.ApprovalInsertMinimal | src/integrations/supabase/types.ts:32-35 | the three required columns alone make a valid insert; every other column is left out |
| Schema.ParseBudgetInsert | src/integrations/supabase/types.ts:74-81 | an accepted object has allocated_budget and fiscal_year and no other column outside the shape; id is never null |
| Schema.BudgetInsertRoundTrip | src/integrations/supabase/types.ts:74-81 | every well-typed budget insert is read back unchanged from its object |
| Schema.BudgetInsertCanonical | src/integrations/supabase/types.ts:74-81 | an accepted budget object is exactly the object its parsed insert writes back |
| Schema.BudgetSpentOptional | src/integrations/supabase/types.ts:79 | spent_budget may be left out or sent as null, and the two are told apart |
| Approvals.CanReview | src/pages/Approvals.tsx:79 | `canReview`; `CanReviewExactlyReviewers` states which roles it admits |
| Approvals.SubmissionRecord | src/pages/Approvals.tsx:51-58 | the JSON object `handleApproval` inserts; `SubmissionRecordShape` states when it is a valid insert and what it carries |
| Approvals.SubmittedRow | src/pages/Approvals.tsx:51-58 | the approval row a successful submission adds; `SubmittedRowStored` states that it is the store's row for the inserted object |
| Approvals.HasMyApproval | src/pages/Approvals.tsx:36-38 | the `hasMyApproval` test: the role has a non-pending approval on the patient; `ReviewQueueExact` and the decision lemmas state its effect on the queue |
| Approvals.ReviewQueue | src/pages/Approvals.tsx:35-42 | the filtered queue; `ReviewQueueExact`, `DecisionLeavesOwnQueue` and `DecisionKeepsOtherQueues` state its meaning |
| Approvals.CanReviewExactlyReviewers | src/pages/Approvals.tsx:79 | the page admits exactly the scientific director and the values reviewer: a signed-in role other than project manager |
| Approvals.SubmissionRecordShape | src/pages/Approvals.tsx:51-58 | the inserted object is a valid approval insert iff the caller has both an id and a role; it then carries the patient, the caller, the decision, the notes (null when empty) and the review time, and leaves id, created_at and nothing else to the store |
| Approvals.StoredApproval | src/integrations/supabase/types.ts:18-37 | the stored row keeps the insert's patient, reviewer, role and notes (null iff none was given), and its status when given |
| Approvals.SubmittedRowStored | src/pages/Approvals.tsx:51-58 | the row the store keeps for the page's object is the submitted row: store id and time, the notes or null, the time, the caller and the decision |
| Approvals.PutOnHold | src/pages/Approvals.tsx:65-70 | the update sets status on_hold on the chosen patient only; the key set and every other patient are unchanged |
| Approvals.ReviewQueueExact | src/pages/Approvals.tsx:26-43 | given the store's pending rows, a patient is in the queue iff it is a stored pending patient on which the caller's role has no non-pending decision; the queue keeps the rows' order |
| Approvals.DecisionLeavesOwnQueue | src/pages/Approvals.tsx:35-40 | after a role records a decision on a patient, that patient is not in the role's queue |
| Approvals.DecisionKeepsOtherQueues | src/pages/Approvals.tsx:35-40 | one role's decision leaves every other role's queue unchanged |
| Approvals.OnHoldLeavesEveryQueue | src/pages/Approvals.tsx:33 | a patient put on hold is in nobody's queue |
| Approvals.ApprovalsPage.constructor | src/pages/Approvals.tsx:14-18 | the page starts with an empty queue, no selection, empty notes and the dialog closed |
| Approvals.ApprovalsPage.SetNotes | src/pages/Approvals.tsx:164 | the notes field takes the typed text |
| Approvals.ApprovalsPage.OpenModificationDialog | src/pages/Approvals.tsx:146-149 | the button selects the patient and opens the dialog |
| Approvals.ApprovalsPage.SetDialogOpen | src/pages/Approvals.tsx:175 | the dialog's open flag takes the given value |
| Approvals.ApprovalsPage.FetchPendingPatients | src/pages/Approvals.tsx:26-43 | the queue is the filtered answer, or empty when the query fails; for a complete pending select it lists exactly the queued patients |
| Approvals.ApprovalsPage.WriteDecision | src/pages/Approvals.tsx:51-70 | the insert succeeds iff the caller has an id and a role, the patient exists (approvals_patient_id_fkey) and the store accepts it; then the log gains exactly the submitted row and, for a modification request whose update succeeds, the patient is on hold; otherwise nothing changes |
| Approvals.ApprovalsPage.HandleApproval | src/pages/Approvals.tsx:45-77 | a decline without notes is refused before any write; a submission succeeds iff the insert does; a failure changes nothing; a success appends the row, puts the patient on hold on a modification request, resets notes, dialog and selection, reloads the queue, and the decided patient is no longer in it; the page invariant is kept |
| Budget.RowsOfYear | src/pages/Budget.tsx:24-27 | the ids selected are exactly the rows of that fiscal year |
| Budget.SingleRow | src/pages/Budget.tsx:28 | `.single()` yields a row iff exactly one row matches, and then that row |
| Budget.SelectBudget | src/pages/Budget.tsx:22-31 | a row is loaded iff exactly one row has the current fiscal year, and it is a stored row of that year |
| Budget.SetAllocated | src/pages/Budget.tsx:36-39 | the update overwrites allocated_budget of the loaded row only; keys and other rows are unchanged |
| Budget.BudgetAndReviewSplitRoles | src/pages/Budget.tsx:146 | the budget card is shown exactly to signed-in users who cannot review, which is the project manager |
| Budget.Remaining | src/pages/Budget.tsx:65 | `remaining`; `RemainingPlusSpent` and `SelectAfterSetAllocated` state its meaning |
| Budget.CanUpdateBudget | src/pages/Budget.tsx:146 | the project-manager gate of the Update Budget card; `BudgetAndReviewSplitRoles` states which roles it admits |
| Budget.RemainingPlusSpent | src/pages/Budget.tsx:65 | remaining plus spent (null counts as 0) is the allocation; remaining is non-negative iff spending is within the allocation |
| Budget.SelectAfterSetAllocated | src/pages/Budget.tsx:36-47 | after an update the reload shows the same row with the new allocation, and the remaining amount is the new allocation minus what was spent |
| Budget.BudgetPage.constructor | src/pages/Budget.tsx:15-16 | the page starts with no row loaded and an empty amount input |
| Budget.BudgetPage.FetchBudget | src/pages/Budget.tsx:22-31 | the loaded row is the current year's single row, or none when the query fails |
| Budget.BudgetPage.SetNewAllocated | src/pages/Budget.tsx:16 | the amount input takes the typed text |
| Budget.BudgetPage.UpdateBudget | src/pages/Budget.tsx:33-49 | nothing happens without a loaded row or an input; a NaN amount or a store error fails and changes nothing; a success overwrites only that row's allocation, reloads the row and clears the input |
| Dashboard.CountStatus | src/pages/Dashboard.tsx:26-27 | a status count never exceeds the number of rows |
| Dashboard.FetchStats | src/pages/Dashboard.tsx:19-35 | the total is the number of rows returned (0 when the query fails); the pending counter is the number of pending rows and the approved counter the number of approved, treatment_started and completed rows, so their sum never exceeds the total; the budget figure is the returned spent amount, 0 when there is no row or it is null |
| Dashboard.PendingCount | src/pages/Dashboard.tsx:26 | `pendingCount`; `PendingCountExact` states that it counts the pending rows |
| Dashboard.ApprovedCount | src/pages/Dashboard.tsx:27 | `approvedCount`; `ApprovedCountExact` states that it counts the approved, treatment_started and completed rows |
| Dashboard.PendingCountExact | src/pages/Dashboard.tsx:26 | the pending counter counts exactly the rows in status pending |
| Dashboard.ApprovedCountExact | src/pages/Dashboard.tsx:27 | the approved counter counts exactly the rows in approved, treatment_started or completed |
| Dashboard.StatusCountsPartition | src/integrations/supabase/types.ts:245-251 | the six status counts add up to the number of rows |
| Dashboard.CountersAndRest | src/pages/Dashboard.tsx:25-27 | the two counters plus the on_hold and declined rows add up to the total |
| Dashboard.SpentAsWrittenIgnoresYear | src/pages/Dashboard.tsx:22-33 | with rows for two fiscal years the counter as written shows 0, while the current year's row holds 500 |
| Dashboard.SpentAsWritten | src/pages/Dashboard.tsx:22-33 | the select as written yields a spent amount iff the table holds exactly one row, of whatever fiscal year, and then that row's amount |
| Dashboard.SpentForYear | src/pages/Dashboard.tsx:22-33 | the corrected select yields a spent amount iff exactly one row has the given fiscal year, and then it is the spent_budget of a stored row of that year |
| Dashboard.SpentForYearMatchesBudgetPage | src/pages/Dashboard.tsx:33 | the corrected counter shows the spent amount of the row the Budget page shows, 0 when it is null or there is no row |
| PatientSearch.Includes | src/pages/Patients.tsx:42-45 | `includes` holds iff the needle occurs at some position of the text |
| PatientSearch.Matches | src/pages/Patients.tsx:41-45 | the search predicate; `FilteredPatientsExact`, `UnsearchedColumns` and `CaseOfTermIrrelevant` state its meaning |
| PatientSearch.FilteredPatients | src/pages/Patients.tsx:40-46 | `filteredPatients`; `FilteredPatientsExact`, `EmptyTermKeepsAll` and `LongerTermNarrows` state its meaning |
| PatientSearch.FilteredPatientsExact | src/pages/Patients.tsx:40-46 | the list keeps, in order, exactly the patients whose first name, last name, PDC number or email contains the term, ignoring case |
| PatientSearch.EmptyTermKeepsAll | src/pages/Patients.tsx:40-46 | an empty search box shows every patient |
| PatientSearch.SameLowerSameResult | src/pages/Patients.tsx:42-45 | two terms equal after lower-casing select the same list |
| PatientSearch.CaseOfTermIrrelevant | src/pages/Patients.tsx:42-45 | the upper-cased and the lower-cased term give the same list as the term |
| PatientSearch.UnsearchedColumns | src/pages/Patients.tsx:40-46 | the clinic name and the status do not affect whether a patient matches |
| PatientSearch.IncludesPrefix | src/pages/Patients.tsx:42-45 | a text that contains a term also contains every prefix of it |
| PatientSearch.LongerTermNarrows | src/pages/Patients.tsx:40-46 | typing more characters only removes patients: the longer term's list is a subsequence of the shorter's |
| PatientSearch.StatusColor | src/pages/Patients.tsx:48-58 | a status string gets a badge class iff it is one of the six patient statuses; any other string gets "" |
| PatientSearch.StatusColorsDistinct | src/pages/Patients.tsx:49-56 | the six statuses get six different badges |
| Seqs.Filter | src/pages/Approvals.tsx:35 | filter keeps exactly the elements the predicate accepts, each as often as in the input, in their order |
| Seqs.FilterKeepAll | src/pages/Patients.tsx:40 | a filter that accepts every element returns the input |
| Seqs.FilterCongruent | src/pages/Patients.tsx:40 | two predicates that agree on the input filter it the same way |
| Seqs.FilterNarrower | src/pages/Patients.tsx:40 | a stricter predicate keeps a subsequence of what a looser one keeps |
| Seqs.FilterDisjointCount | src/pages/Dashboard.tsx:26-27 | two filters that never accept the same element keep at most as many elements together as the input has |

## Left out

- Rendering: the JSX, the toasts, the loading spinner and the icons have no state the model needs.
- Asynchrony: the `async` handlers and `Promise.all` are modelled as if they ran one after the other.
- Approvals.ApprovalsPage.HandleApproval: the update's error at Approvals.tsx:66-69 is ignored
  by the page. The model ignores it too; on a failed update the patient simply stays as it was.
- Approvals.StoredApproval: the default of `approvals.status` is not in the schema types. It is
  taken to be `pending`. The page always sends a status, so the default never applies.
- Approvals.ApprovalsPage.FetchPendingPatients: the page reads each patient's embedded
  `approvals(*)`. The model reads the page's approvals log filtered by patient id, which is the
  same set under approvals_patient_id_fkey. The rows and their order are the store's answer,
  passed as a parameter.
- The authentication hook (`useAuth`) and the `has_role` store function: the signed-in user and
  role are constants of the page.
- Patient columns beyond id, names, email, PDC number, clinic name and status are not modelled.
  The patients list fetch at Patients.tsx:31-38 and its `created_at` order are a parameter.
- PatientSearch.Matches: `toLowerCase` is modelled on ASCII letters only; Unicode case mapping
  is not modelled.
- PatientSearch.StatusColor: a lookup of an inherited object key (such as `constructor`) on
  the colour table is not modelled; only own keys are.
- Budget.BudgetPage.UpdateBudget: `parseFloat` and fractional amounts are not modelled.
  Amounts are whole units, and the parsed input arrives as an `Option` where `None` stands
  for NaN, which the store refuses.
- Budget.RemainingPlusSpent: a null `spent_budget` counts as 0 in `remaining` (Budget.tsx:65), but the
  page never shows that figure for such a row: `spent_budget.toLocaleString()` at Budget.tsx:95 throws on
  null first. The render failure is not modelled.
- Budget: `percentageUsed` (Budget.tsx:64) and its `toFixed` display are floating point and
  are not modelled.
- The generic helper types of types.ts (`Tables`, `TablesInsert`, `Enums`, …) only rename the
  modelled shapes. `Update` shapes, `profiles`, `user_roles` and the other tables are not part
  of this model.
- The Layout, PatientDetail and Users pages are not part of this model.

## Findings

| source | as written | input that shows it | evidently intended | confidence | as-written member | corrected member |
|---|---|---|---|---|---|---|
| src/pages/Dashboard.tsx:22-33 | `select("spent_budget").single()` has no fiscal-year filter, so the query finds no single row as soon as the table holds more than one row, and the "Budget Spent" card shows 0 | `budget_tracking` rows for 2025 (spent 100) and 2026 (spent 500), current year 2026 | the current fiscal year's spent amount, as the card's description (Dashboard.tsx:63) and the Budget page's select (Budget.tsx:27) say | medium, not executed | Dashboard.SpentAsWrittenIgnoresYear | Dashboard.SpentForYear |
