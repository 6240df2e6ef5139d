/**
 * The doctor's patient list (client/src/pages/patients/PatientsList.jsx):
 * the search on the child's and the parent's names. Its filter menu has
 * no effect. The age shown is `AgeLabel.YearsOnly`.
 */
module PatientsList {
  import opened Common
  import opened Text

  /** A child as the list receives it, with the parent's name when the parent is populated. */
  datatype Patient = Patient(name: string, parentName: Option<string>)

  /** The search text, compared without case, is inside the child's name or the parent's. */
  predicate Matches(p: Patient, searchTerm: string)
    ensures searchTerm == "" ==> Matches(p, searchTerm)
  {
    IncludesEmpty(Lower(p.name));
    Includes(Lower(p.name), Lower(searchTerm)) ||
    (p.parentName.Some? && Includes(Lower(p.parentName.value), Lower(searchTerm)))
  }

  /** `filteredPatients`: the matching patients in the order received, whatever the filter says. */
  function Filtered(patients: seq<Patient>, searchTerm: string, filter: string): (r: seq<Patient>)
    ensures forall p :: p in r <==> p in patients && Matches(p, searchTerm)
    ensures IsSubsequence(r, patients)
  {
    Filter(patients, (p: Patient) => Matches(p, searchTerm))
  }

  /** The filter menu changes nothing. */
  lemma FilterIsIgnored(patients: seq<Patient>, searchTerm: string, f1: string, f2: string)
    ensures Filtered(patients, searchTerm, f1) == Filtered(patients, searchTerm, f2)
  {
  }

  /** An empty search lists every patient. */
  lemma EmptySearchListsAll(patients: seq<Patient>, filter: string)
    ensures Filtered(patients, "", filter) == patients
  {
    forall p | p in patients ensures Matches(p, "") {
      IncludesEmpty(Lower(p.name));
    }
    FilterAll(patients, (p: Patient) => Matches(p, ""));
  }

  /** A patient whose name is the search text, whatever its case, is listed. */
  lemma OwnNameMatches(p: Patient, searchTerm: string)
    requires Lower(p.name) == Lower(searchTerm)
    ensures Matches(p, searchTerm)
  {
    assert OccursAt(Lower(p.name), Lower(searchTerm), 0);
  }
}
