/** A doctor's note on a child (server/models/DoctorNote.js). */
module NoteModel {
  import opened Common

  datatype NoteCategory = General | VaccinationNote | Allergy | Treatment | Followup | Other

  datatype DoctorNote = DoctorNote(
    child: Id,
    doctor: Id,
    content: string,
    category: NoteCategory,
    isPrivate: bool,
    createdAt: int)
}
