/** One dose of one vaccine for one child (server/models/VaccinationRecord.js). */
module RecordModel {
  import opened Common

  datatype DoseStatus = Scheduled | Completed | Delayed | Missed | Cancelled

  datatype DoseRecord = DoseRecord(
    child: Id,
    vaccine: Id,
    doctor: Option<Id>,
    doseNumber: int,
    scheduledDate: int,
    administeredDate: Option<int>,
    status: DoseStatus,
    notes: Option<string>,
    batchNumber: Option<string>)

  /** A record as stored when only child, vaccine, dose number, date and status are given. */
  function NewRecord(child: Id, vaccine: Id, doseNumber: int, scheduledDate: int, status: DoseStatus): (r: DoseRecord)
    ensures r.child == child && r.vaccine == vaccine && r.doseNumber == doseNumber
    ensures r.scheduledDate == scheduledDate && r.status == status
    ensures r.doctor == None && r.administeredDate == None && r.notes == None && r.batchNumber == None
  {
    DoseRecord(child, vaccine, None, doseNumber, scheduledDate, None, status, None, None)
  }

  /** The schema defaults: dose number 1 and status `scheduled`. */
  function DefaultRecord(child: Id, vaccine: Id, scheduledDate: int): (r: DoseRecord)
    ensures r.doseNumber == 1 && r.status == Scheduled
  {
    NewRecord(child, vaccine, 1, scheduledDate, Scheduled)
  }
}
