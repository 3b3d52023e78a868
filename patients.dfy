/**
 * The Patients page: the search box filter over the fetched patient list,
 * and the badge class chosen for a status.
 *
 * `toLowerCase` is modelled on ASCII letters only.
 */
module PatientSearch {
  import opened Wrappers
  import opened Schema
  import opened Seqs

  function LowerChar(c: char): char {
    if 'A' <= c <= 'Z' then (c as int + 32) as char else c
  }

  function UpperChar(c: char): char {
    if 'a' <= c <= 'z' then (c as int - 32) as char else c
  }

  function ToLower(s: string): string {
    seq(|s|, i requires 0 <= i < |s| => LowerChar(s[i]))
  }

  function ToUpper(s: string): string {
    seq(|s|, i requires 0 <= i < |s| => UpperChar(s[i]))
  }

  /** `needle` occurs in `hay` at position `i`. */
  predicate OccursAt(hay: string, needle: string, i: int) {
    0 <= i && i + |needle| <= |hay| && hay[i..i + |needle|] == needle
  }

  /** `String.prototype.includes`: scan `hay` left to right for `needle`. */
  function Includes(hay: string, needle: string): (r: bool)
    ensures r <==> exists i :: OccursAt(hay, needle, i)
    decreases |hay|
  {
    if |needle| > |hay| then false
    else if hay[..|needle|] == needle then
      assert OccursAt(hay, needle, 0);
      true
    else
      var r := Includes(hay[1..], needle);
      assert forall i :: OccursAt(hay[1..], needle, i) ==> OccursAt(hay, needle, i + 1) by {
        forall i | OccursAt(hay[1..], needle, i) ensures OccursAt(hay, needle, i + 1) {
          assert hay[1..][i..i + |needle|] == hay[i + 1..i + 1 + |needle|];
        }
      }
      assert forall i :: OccursAt(hay, needle, i) && i != 0 ==> OccursAt(hay[1..], needle, i - 1) by {
        forall i | OccursAt(hay, needle, i) && i != 0 ensures OccursAt(hay[1..], needle, i - 1) {
          assert hay[1..][i - 1..i - 1 + |needle|] == hay[i..i + |needle|];
        }
      }
      r
  }

  /** The search predicate: the lower-cased term occurs in one of the four searched columns. */
  predicate Matches(p: Patient, term: string) {
    var t := ToLower(term);
    Includes(ToLower(p.firstName), t) || Includes(ToLower(p.lastName), t)
    || Includes(ToLower(p.pdcNumber), t) || Includes(ToLower(p.email), t)
  }

  /** `filteredPatients`. */
  function FilteredPatients(patients: seq<Patient>, term: string): seq<Patient> {
    Filter(patients, (p: Patient) => Matches(p, term))
  }

  /**
   * The filtered list keeps, in their order, exactly the patients whose first
   * name, last name, PDC number or email contains the term, ignoring case.
   */
  lemma FilteredPatientsExact(patients: seq<Patient>, term: string, p: Patient)
    ensures IsSubsequence(FilteredPatients(patients, term), patients)
    ensures p in FilteredPatients(patients, term) <==>
      p in patients &&
      exists i :: OccursAt(ToLower(p.firstName), ToLower(term), i) || OccursAt(ToLower(p.lastName), ToLower(term), i)
               || OccursAt(ToLower(p.pdcNumber), ToLower(term), i) || OccursAt(ToLower(p.email), ToLower(term), i)
  {
  }

  /** The empty term occurs everywhere, so an empty search box shows every patient. */
  lemma EmptyTermKeepsAll(patients: seq<Patient>)
    ensures FilteredPatients(patients, "") == patients
  {
    forall p: Patient ensures Matches(p, "") {
      assert OccursAt(ToLower(p.firstName), "", 0);
    }
    FilterKeepAll(patients, (p: Patient) => Matches(p, ""));
  }

  /** Two terms that agree after lower-casing select the same patients. */
  lemma SameLowerSameResult(patients: seq<Patient>, term1: string, term2: string)
    requires ToLower(term1) == ToLower(term2)
    ensures FilteredPatients(patients, term1) == FilteredPatients(patients, term2)
  {
    FilterCongruent(patients, (p: Patient) => Matches(p, term1), (p: Patient) => Matches(p, term2));
  }

  lemma LowerOfUpper(s: string)
    ensures ToLower(ToUpper(s)) == ToLower(s)
  {
  }

  lemma LowerOfLower(s: string)
    ensures ToLower(ToLower(s)) == ToLower(s)
  {
  }

  /** Searching for the upper-cased or lower-cased term gives the same list as the term itself. */
  lemma CaseOfTermIrrelevant(patients: seq<Patient>, term: string)
    ensures FilteredPatients(patients, ToUpper(term)) == FilteredPatients(patients, term)
    ensures FilteredPatients(patients, ToLower(term)) == FilteredPatients(patients, term)
  {
    LowerOfUpper(term);
    LowerOfLower(term);
    SameLowerSameResult(patients, ToUpper(term), term);
    SameLowerSameResult(patients, ToLower(term), term);
  }

  /** The clinic name and the status are not searched. */
  lemma UnsearchedColumns(p: Patient, clinicName: string, status: PatientStatus, term: string)
    ensures Matches(p.(clinicName := clinicName, status := status), term) == Matches(p, term)
  {
  }

  lemma IncludesPrefix(hay: string, a: string, b: string)
    requires Includes(hay, a + b)
    ensures Includes(hay, a)
  {
    var i :| OccursAt(hay, a + b, i);
    assert hay[i..i + |a|] == (a + b)[..|a|];
    assert OccursAt(hay, a, i);
  }

  /** Typing more characters only narrows the list: the longer term's list is a subsequence of the shorter's. */
  lemma LongerTermNarrows(patients: seq<Patient>, term: string, more: string)
    ensures IsSubsequence(FilteredPatients(patients, term + more), FilteredPatients(patients, term))
  {
    assert ToLower(term + more) == ToLower(term) + ToLower(more);
    forall p: Patient | Matches(p, term + more) ensures Matches(p, term) {
      var t, m := ToLower(term), ToLower(more);
      if Includes(ToLower(p.firstName), t + m) {
        IncludesPrefix(ToLower(p.firstName), t, m);
      } else if Includes(ToLower(p.lastName), t + m) {
        IncludesPrefix(ToLower(p.lastName), t, m);
      } else if Includes(ToLower(p.pdcNumber), t + m) {
        IncludesPrefix(ToLower(p.pdcNumber), t, m);
      } else {
        IncludesPrefix(ToLower(p.email), t, m);
      }
    }
    FilterNarrower(patients, (p: Patient) => Matches(p, term + more), (p: Patient) => Matches(p, term));
  }

  // ---------------------------------------------------------------------------
  // Status badge
  // ---------------------------------------------------------------------------

  /** `getStatusColor`: the badge classes of a known status, "" for any other string. */
  function StatusColor(status: string): (r: string)
    ensures r != "" <==> ParsePatientStatus(status).Some?
  {
    if status == "pending" then "bg-warning/10 text-warning border-warning/20"
    else if status == "on_hold" then "bg-muted text-muted-foreground"
    else if status == "approved" then "bg-success/10 text-success border-success/20"
    else if status == "treatment_started" then "bg-primary/10 text-primary border-primary/20"
    else if status == "completed" then "bg-success text-success-foreground"
    else if status == "declined" then "bg-destructive/10 text-destructive border-destructive/20"
    else ""
  }

  /** Each of the six statuses gets its own badge. */
  lemma StatusColorsDistinct(s: PatientStatus, t: PatientStatus)
    requires s != t
    ensures StatusColor(PatientStatusName(s)) != StatusColor(PatientStatusName(t))
  {
  }
}
