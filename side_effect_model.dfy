/** A parent's report of a reaction after a dose (server/models/SideEffect.js). */
module SideEffectModel {
  import opened Common

  datatype Symptom = Fever | Swelling | Redness | Pain | Fatigue | Headache | Nausea | Vomiting | Rash | Allergic | OtherSymptom

  datatype Severity = Mild | Moderate | Severe

  datatype ReviewStatus = ReportPending | ReportReviewed | Resolved

  datatype SideEffect = SideEffect(
    child: Id,
    vaccination: Id,
    vaccine: Id,
    reportedBy: Id,
    symptoms: seq<Symptom>,
    severity: Severity,
    description: string,
    onsetDate: int,
    duration: string,
    status: ReviewStatus,
    doctorNotes: Option<string>,
    reviewedBy: Option<Id>,
    reviewedAt: Option<int>,
    createdAt: int)
}
