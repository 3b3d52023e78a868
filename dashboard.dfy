/**
 * The Dashboard's counters: how many patients there are, how many wait for
 * review, how many are approved or further along, and the budget spent.
 */
module Dashboard {
  import opened Wrappers
  import opened Schema
  import opened Seqs
  import Budget

  datatype Stats = Stats(totalPatients: nat, pendingApprovals: nat, approvedPatients: nat, budgetSpent: int)

  predicate IsPendingPatient(p: Patient) {
    p.status == PatientStatus.Pending
  }

  /** approved, treatment_started or completed */
  predicate IsApprovedOrLater(p: Patient) {
    p.status == PatientStatus.Approved || p.status == TreatmentStarted || p.status == Completed
  }

  /** `pendingCount`: the length of the pending filter. */
  function PendingCount(patients: seq<Patient>): nat {
    |Filter(patients, IsPendingPatient)|
  }

  /** `approvedCount`: the length of the approved-or-later filter. */
  function ApprovedCount(patients: seq<Patient>): nat {
    |Filter(patients, IsApprovedOrLater)|
  }

  /** Reference count: the number of rows in a given status, by direct recursion. */
  function CountStatus(patients: seq<Patient>, s: PatientStatus): (n: nat)
    ensures n <= |patients|
  {
    if patients == [] then 0
    else (if patients[0].status == s then 1 else 0) + CountStatus(patients[1..], s)
  }

  /**
   * `fetchStats`. `patientsData` is the answer of the patients select (`None`
   * when the query fails: `data || []`); `spentData` is the answer of the
   * budget select: no row, or a row whose `spent_budget` may be null
   * (`data?.spent_budget || 0`).
   */
  function FetchStats(patientsData: Option<seq<Patient>>, spentData: Option<Option<int>>): (st: Stats)
    ensures st.totalPatients == |patientsData.GetOr([])|
    ensures st.pendingApprovals == CountStatus(patientsData.GetOr([]), PatientStatus.Pending)
    ensures st.approvedPatients
         == CountStatus(patientsData.GetOr([]), PatientStatus.Approved)
          + CountStatus(patientsData.GetOr([]), TreatmentStarted) + CountStatus(patientsData.GetOr([]), Completed)
    ensures st.pendingApprovals + st.approvedPatients <= st.totalPatients
    ensures spentData.None? || spentData.value.None? ==> st.budgetSpent == 0
    ensures spentData.Some? && spentData.value.Some? ==> st.budgetSpent == spentData.value.value
  {
    var patients := patientsData.GetOr([]);
    FilterDisjointCount(patients, IsPendingPatient, IsApprovedOrLater);
    PendingCountExact(patients);
    ApprovedCountExact(patients);
    Stats(|patients|, PendingCount(patients), ApprovedCount(patients),
          match spentData
          case Some(Some(spent)) => spent
          case _ => 0)
  }

  /** `pendingApprovals` counts exactly the rows in status `pending`. */
  lemma {:induction false} PendingCountExact(patients: seq<Patient>)
    ensures PendingCount(patients) == CountStatus(patients, PatientStatus.Pending)
  {
    if patients != [] {
      PendingCountExact(patients[1..]);
    }
  }

  /** `approvedPatients` counts exactly the rows in status approved, treatment_started or completed. */
  lemma {:induction false} ApprovedCountExact(patients: seq<Patient>)
    ensures ApprovedCount(patients)
         == CountStatus(patients, PatientStatus.Approved) + CountStatus(patients, TreatmentStarted)
          + CountStatus(patients, Completed)
  {
    if patients != [] {
      ApprovedCountExact(patients[1..]);
    }
  }

  /** Every row is in exactly one of the six statuses. */
  lemma {:induction false} StatusCountsPartition(patients: seq<Patient>)
    ensures CountStatus(patients, PatientStatus.Pending) + CountStatus(patients, OnHold)
          + CountStatus(patients, PatientStatus.Approved) + CountStatus(patients, TreatmentStarted)
          + CountStatus(patients, Completed) + CountStatus(patients, PatientStatus.Declined)
         == |patients|
  {
    if patients != [] {
      StatusCountsPartition(patients[1..]);
    }
  }

  /**
   * The two counters and the on_hold and declined rows split the total: rows
   * on hold or declined are counted in neither counter.
   */
  lemma CountersAndRest(patients: seq<Patient>)
    ensures PendingCount(patients) + ApprovedCount(patients)
          + CountStatus(patients, OnHold) + CountStatus(patients, PatientStatus.Declined)
         == |patients|
  {
    PendingCountExact(patients);
    ApprovedCountExact(patients);
    StatusCountsPartition(patients);
  }

  // ---------------------------------------------------------------------------
  // The budget select
  // ---------------------------------------------------------------------------

  /**
   * The budget select as written: `spent_budget` of the table's single row,
   * with no fiscal-year filter, so no row at all as soon as the table holds
   * rows for more than one year.
   */
  function SpentAsWritten(table: Budget.BudgetTable): (r: Option<Option<int>>)
    ensures r.Some? <==> |table| == 1
    ensures r.Some? ==> forall id :: id in table ==> r.value == table[id].spentBudget
  {
    match Budget.SingleRow(table, table.Keys)
    case Some(row) => Some(row.spentBudget)
    case None => None
  }

  /** The intended select: `spent_budget` of the current fiscal year's row, the row the Budget page shows. */
  function SpentForYear(table: Budget.BudgetTable, year: int): (r: Option<Option<int>>)
    ensures r.Some? <==> |Budget.RowsOfYear(table, year)| == 1
    ensures r.Some? ==> exists id :: id in table && table[id].fiscalYear == year && r.value == table[id].spentBudget
  {
    match Budget.SelectBudget(table, year)
    case Some(row) => Some(row.spentBudget)
    case None => None
  }

  /**
   * With one row per fiscal year for two years, the counter as written shows
   * 0 although the current year's row records 500 spent.
   */
  lemma SpentAsWrittenIgnoresYear()
    ensures var table := map["b1" := Schema.BudgetRow(10000, None, 2025, "b1", Some(100), None),
                             "b2" := Schema.BudgetRow(10000, None, 2026, "b2", Some(500), None)];
            && FetchStats(Some([]), SpentAsWritten(table)).budgetSpent == 0
            && FetchStats(Some([]), SpentForYear(table, 2026)).budgetSpent == 500
  {
    var table := map["b1" := Schema.BudgetRow(10000, None, 2025, "b1", Some(100), None),
                     "b2" := Schema.BudgetRow(10000, None, 2026, "b2", Some(500), None)];
    assert "b1" != "b2";
    assert |table.Keys| == 2;
    assert Budget.RowsOfYear(table, 2026) == {"b2"};
  }

  /** The corrected counter shows exactly what the Budget page shows as spent, 0 when there is none. */
  lemma SpentForYearMatchesBudgetPage(table: Budget.BudgetTable, year: int)
    ensures FetchStats(Some([]), SpentForYear(table, year)).budgetSpent
         == match Budget.SelectBudget(table, year)
            case Some(row) => row.spentBudget.GetOr(0)
            case None => 0
  {
  }
}
