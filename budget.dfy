/**
 * The Budget page: it loads the `budget_tracking` row of the current fiscal
 * year, shows what remains of it, and lets a project manager overwrite the
 * row's allocated amount.
 *
 * The table is keyed by row id. The current year (the browser clock), the
 * parsed input (`parseFloat`, whose NaN is `None`) and the store's failures
 * are parameters.
 */
module Budget {
  import opened Wrappers
  import opened Schema
  import Approvals

  type BudgetTable = map<Uuid, BudgetRow>

  /** Rows are keyed by their own id. */
  ghost predicate KeyedById(table: BudgetTable) {
    forall id :: id in table ==> table[id].id == id
  }

  /** The ids of the rows for one fiscal year. */
  function RowsOfYear(table: BudgetTable, year: int): (ids: set<Uuid>)
    ensures ids <= table.Keys
    ensures forall id :: id in ids <==> id in table && table[id].fiscalYear == year
  {
    set id | id in table && table[id].fiscalYear == year
  }

  /** Postgrest's `.single()`: the one row among `ids`, and no row when there are none or several. */
  function SingleRow(table: BudgetTable, ids: set<Uuid>): (r: Option<BudgetRow>)
    requires ids <= table.Keys
    ensures r.Some? <==> |ids| == 1
    ensures r.Some? ==> exists id :: ids == {id} && r.value == table[id]
  {
    if |ids| == 1 then
      var id :| id in ids;
      assert ids == {id} by {
        assert |ids - {id}| == 0;
      }
      Some(table[id])
    else
      None
  }

  /** `fetchBudget`'s query: the row whose `fiscal_year` is the current year, if exactly one. */
  function SelectBudget(table: BudgetTable, year: int): (r: Option<BudgetRow>)
    ensures r.Some? <==> |RowsOfYear(table, year)| == 1
    ensures r.Some? ==> r.value in table.Values && r.value.fiscalYear == year
  {
    SingleRow(table, RowsOfYear(table, year))
  }

  /** The store's update `set allocated_budget = amount where id = rowId`. */
  function SetAllocated(table: BudgetTable, rowId: Uuid, amount: int): (r: BudgetTable)
    ensures r.Keys == table.Keys
    ensures rowId in table ==> r[rowId] == table[rowId].(allocatedBudget := amount)
    ensures forall id :: id in table && id != rowId ==> r[id] == table[id]
  {
    if rowId in table then table[rowId := table[rowId].(allocatedBudget := amount)] else table
  }

  /** `remaining`: a null `spent_budget` counts as 0 in the subtraction. */
  function Remaining(row: BudgetRow): int {
    row.allocatedBudget - row.spentBudget.GetOr(0)
  }

  /** The Update Budget card is rendered for project managers only. */
  function CanUpdateBudget(role: Option<AppRole>): bool {
    role == Some(ProjectManager)
  }

  /** The budget control and the review page split the roles: every role gets exactly one of them. */
  lemma BudgetAndReviewSplitRoles(role: Option<AppRole>)
    ensures CanUpdateBudget(role) <==> role.Some? && !Approvals.CanReview(role)
  {
    Approvals.CanReviewExactlyReviewers(role);
    match role
    case None =>
    case Some(r) =>
      match r
      case ScientificDirector =>
      case ValuesReviewer =>
      case ProjectManager =>
  }

  /** Remaining and spent always add up to the allocated amount. */
  lemma RemainingPlusSpent(row: BudgetRow)
    ensures Remaining(row) + row.spentBudget.GetOr(0) == row.allocatedBudget
    ensures Remaining(row) >= 0 <==> row.spentBudget.GetOr(0) <= row.allocatedBudget
  {
  }

  /**
   * Overwriting the allocation of the displayed row leaves the same row
   * displayed, with the new allocation, the same spent amount and fiscal year,
   * and a remaining amount of the new allocation minus what was spent.
   */
  lemma SelectAfterSetAllocated(table: BudgetTable, year: int, amount: int)
    requires KeyedById(table)
    requires SelectBudget(table, year).Some?
    ensures var row := SelectBudget(table, year).value;
            && SelectBudget(SetAllocated(table, row.id, amount), year) == Some(row.(allocatedBudget := amount))
            && Remaining(row.(allocatedBudget := amount)) == amount - row.spentBudget.GetOr(0)
  {
    var row := SelectBudget(table, year).value;
    var id :| RowsOfYear(table, year) == {id} && row == table[id];
    var updated := SetAllocated(table, row.id, amount);
    assert RowsOfYear(updated, year) == RowsOfYear(table, year);
  }

  datatype UpdateOutcome = NothingToDo | UpdateFailed | Updated

  class BudgetPage {
    /** The store's `budget_tracking` table. */
    var table: BudgetTable
    /** The loaded row (`budget`), and the text of the amount input (`newAllocated`). */
    var budget: Option<BudgetRow>
    var newAllocated: string

    ghost predicate Valid()
      reads this
    {
      KeyedById(table)
    }

    constructor (table: BudgetTable)
      requires KeyedById(table)
      ensures Valid()
      ensures this.table == table && budget == None && newAllocated == ""
    {
      this.table := table;
      budget := None;
      newAllocated := "";
    }

    /** `fetchBudget`; a failed query leaves `budget` null. */
    method FetchBudget(currentYear: int, fails: bool)
      modifies this`budget
      ensures budget == if fails then None else SelectBudget(table, currentYear)
    {
      if fails {
        budget := None;
      } else {
        budget := SelectBudget(table, currentYear);
      }
    }

    /** The amount input's `onChange`. */
    method SetNewAllocated(text: string)
      modifies this`newAllocated
      ensures newAllocated == text
    {
      newAllocated := text;
    }

    /**
     * `updateBudget`. `amount` is `parseFloat(newAllocated)` (`None` for NaN,
     * which is sent as null and refused by the store). The caller's role is not
     * checked here: only the card is hidden from other roles.
     */
    method UpdateBudget(amount: Option<int>, updateFails: bool, currentYear: int, refetchFails: bool)
      returns (outcome: UpdateOutcome)
      requires Valid()
      modifies this`table, this`budget, this`newAllocated
      ensures Valid()
      ensures outcome.NothingToDo? <==> old(budget).None? || old(newAllocated) == ""
      ensures outcome.UpdateFailed? <==> old(budget).Some? && old(newAllocated) != "" && (amount.None? || updateFails)
      ensures !outcome.Updated? ==>
        table == old(table) && budget == old(budget) && newAllocated == old(newAllocated)
      ensures outcome.Updated? ==>
        && table == SetAllocated(old(table), old(budget).value.id, amount.value)
        && budget == (if refetchFails then None else SelectBudget(table, currentYear))
        && newAllocated == ""
    {
      if budget.None? || newAllocated == "" {
        return NothingToDo;
      }
      if amount.None? || updateFails {
        return UpdateFailed;
      }
      table := SetAllocated(table, budget.value.id, amount.value);
      FetchBudget(currentYear, refetchFails);
      newAllocated := "";
      outcome := Updated;
    }
  }
}
