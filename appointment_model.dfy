/** An appointment request (server/models/Appointment.js). */
module AppointmentModel {
  import opened Common

  datatype AppointmentStatus = Pending | Confirmed | Cancelled | Completed | Rejected

  datatype AppointmentType = Vaccination | Checkup | Consultation

  datatype Appointment = Appointment(
    child: Id,
    parent: Id,
    doctor: Option<Id>,
    scheduledDate: int,
    scheduledTime: string,
    status: AppointmentStatus,
    kind: AppointmentType,
    vaccines: seq<Id>,
    notes: Option<string>,
    rejectionReason: Option<string>)
}
