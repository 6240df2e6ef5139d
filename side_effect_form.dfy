/**
 * The side-effect report form (client/src/components/SideEffectForm.jsx):
 * the symptom checkboxes, the refusal of a report without symptoms, the
 * defaults and the report sent. Today's date is an input.
 */
module SideEffectForm {
  import opened Common

  /** The values of the symptom checkboxes. */
  const SymptomOptions: seq<string> :=
    ["fever", "swelling", "redness", "pain", "fatigue", "headache", "nausea", "vomiting", "rash", "allergic", "other"]

  datatype FormData = FormData(symptoms: seq<string>, severity: string, description: string,
                               onsetDate: string, duration: string)

  /** The form as it opens: no symptoms, mild, starting today. */
  function Defaults(today: string): (f: FormData)
    ensures f.symptoms == [] && f.severity == "mild" && f.description == "" && f.duration == ""
    ensures f.onsetDate == today
  {
    FormData([], "mild", "", today, "")
  }

  /** `handleSymptomToggle`: a ticked symptom is removed, any other is appended. */
  function Toggle(symptoms: seq<string>, symptom: string): (r: seq<string>)
    ensures symptom in symptoms ==> r == Filter(symptoms, (s: string) => s != symptom)
    ensures symptom !in symptoms ==> r == symptoms + [symptom]
  {
    if symptom in symptoms then Filter(symptoms, (s: string) => s != symptom) else symptoms + [symptom]
  }

  /** A toggle flips the symptom's membership, leaves the other symptoms alone, and never makes a duplicate. */
  lemma ToggleFlips(symptoms: seq<string>, symptom: string)
    requires NoDuplicates(symptoms)
    ensures symptom in Toggle(symptoms, symptom) <==> symptom !in symptoms
    ensures forall s :: s != symptom ==> (s in Toggle(symptoms, symptom) <==> s in symptoms)
    ensures NoDuplicates(Toggle(symptoms, symptom))
  {
    if symptom in symptoms {
      FilterNoDuplicates(symptoms, (s: string) => s != symptom);
    } else {
      var r := symptoms + [symptom];
      forall i, j | 0 <= i < j < |r| ensures r[i] != r[j] {
        if j == |symptoms| {
          assert r[i] == symptoms[i];
        }
      }
    }
  }

  /** Toggling twice gives the same symptoms back, when the symptom was not ticked. */
  lemma ToggleTwice(symptoms: seq<string>, symptom: string)
    requires symptom !in symptoms
    ensures Toggle(Toggle(symptoms, symptom), symptom) == symptoms
  {
    var p := (s: string) => s != symptom;
    FilterAppend(symptoms, symptom, p);
    FilterAll(symptoms, p);
  }

  /** The report `sideEffectsAPI.report` sends: the three ids, then the form's fields. */
  datatype Report = Report(childId: string, vaccinationId: string, vaccineId: string, form: FormData)

  /** `handleSubmit`'s check: without a symptom an error is shown and nothing is sent. */
  datatype Submission = Refused(error: string) | Sent(report: Report)

  function Submit(childId: string, vaccinationId: string, vaccineId: string, f: FormData): (r: Submission)
    ensures r.Refused? <==> f.symptoms == []
    ensures r.Sent? ==> r.report == Report(childId, vaccinationId, vaccineId, f)
  {
    if |f.symptoms| == 0 then Refused("Veuillez sélectionner au moins un symptôme")
    else Sent(Report(childId, vaccinationId, vaccineId, f))
  }

  /** A form just opened cannot be sent; ticking one symptom makes it sendable. */
  lemma OneSymptomSuffices(today: string, symptom: string, childId: string, vaccinationId: string, vaccineId: string)
    ensures Submit(childId, vaccinationId, vaccineId, Defaults(today)).Refused?
    ensures var f := Defaults(today).(symptoms := Toggle([], symptom));
      Submit(childId, vaccinationId, vaccineId, f).Sent? && f.symptoms == [symptom]
  {
  }
}
