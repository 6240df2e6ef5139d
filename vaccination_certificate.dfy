/**
 * The printable vaccination record (client/src/components/VaccinationCertificate.jsx):
 * the table of completed doses and the summary of completed, scheduled and
 * delayed ones. The age shown is `AgeLabel.Detailed`.
 */
module VaccinationCertificate {
  import opened Common
  import opened ChildDetail

  /** The doses of the history table: the completed ones, in the order received. */
  function CompletedDoses(s: seq<Dose>): (r: seq<Dose>)
    ensures forall d :: d in r <==> d in s && d.status == "completed"
    ensures IsSubsequence(r, s)
  {
    Filter(s, (d: Dose) => d.status == "completed")
  }

  /** The table has as many rows as the summary counts completed doses. */
  lemma {:induction false} CompletedRowsAreCounted(s: seq<Dose>)
    ensures |CompletedDoses(s)| == StatusCount(s, "completed")
  {
    if s != [] {
      CompletedRowsAreCounted(s[1..]);
    }
  }

  /** One row of the table. */
  datatype Row = Row(vaccine: string, doseNumber: int, date: int, doctor: string)

  /**
   * A row: the vaccine's name or "N/A", the administration date or else the
   * scheduled one, and "Dr. " with the doctor's name or "-" without one.
   */
  function RowOf(d: Dose): (r: Row)
    ensures r.vaccine == OrElse(Pick(d.vaccineName, ""), "N/A")
    ensures r.doseNumber == d.doseNumber
    ensures d.administeredDate.Some? ==> r.date == d.administeredDate.value
    ensures d.administeredDate.None? ==> r.date == d.scheduledDate
    ensures r.doctor == "-" <==> d.doctorName.None? || d.doctorName.value == ""
    ensures r.doctor != "-" ==> r.doctor == "Dr. " + d.doctorName.value
  {
    Row(OrElse(Pick(d.vaccineName, ""), "N/A"), d.doseNumber,
        if d.administeredDate.Some? then d.administeredDate.value else d.scheduledDate,
        if d.doctorName.Some? && d.doctorName.value != "" then "Dr. " + d.doctorName.value else "-")
  }

  /** The table's rows, one per completed dose. */
  function Rows(s: seq<Dose>): (r: seq<Row>)
    ensures |r| == |CompletedDoses(s)|
    ensures forall i :: 0 <= i < |r| ==> r[i] == RowOf(CompletedDoses(s)[i])
  {
    var c := CompletedDoses(s);
    seq(|c|, i requires 0 <= i < |c| => RowOf(c[i]))
  }

  /** For a completed dose the table and the child page agree on the date whenever the dose has an administration date. */
  lemma RowDateAgreesWithPage(d: Dose)
    requires d.status == "completed" && d.administeredDate.Some?
    ensures DateShown(d) == AdministeredOn(RowOf(d).date)
  {
  }

  datatype Summary = Summary(completed: nat, scheduled: nat, delayed: nat)

  /** The summary above the table: the completed, scheduled and delayed doses. */
  function SummaryOf(s: seq<Dose>): (r: Summary)
    ensures r.completed == |CompletedDoses(s)|
    ensures r.scheduled == |Filter(s, (d: Dose) => d.status == "scheduled")|
    ensures r.delayed == |Filter(s, (d: Dose) => d.status == "delayed")|
  {
    CompletedRowsAreCounted(s);
    StatusCountIsFilter(s, "scheduled");
    StatusCountIsFilter(s, "delayed");
    Summary(StatusCount(s, "completed"), StatusCount(s, "scheduled"), StatusCount(s, "delayed"))
  }

  predicate KnownStatus(status: string)
  {
    status in {"scheduled", "completed", "delayed", "missed", "cancelled"}
  }

  /**
   * With the five statuses of the record schema, the summary counts every
   * dose except the missed and cancelled ones, which appear in none of its
   * figures.
   */
  lemma {:induction false} SummaryLeavesOutMissedAndCancelled(s: seq<Dose>)
    requires forall i :: 0 <= i < |s| ==> KnownStatus(s[i].status)
    ensures var m := SummaryOf(s);
      m.completed + m.scheduled + m.delayed + StatusCount(s, "missed") + StatusCount(s, "cancelled") == |s|
  {
    if s != [] {
      assert forall i :: 0 <= i < |s[1..]| ==> s[1..][i] == s[i + 1];
      SummaryLeavesOutMissedAndCancelled(s[1..]);
    }
  }
}
