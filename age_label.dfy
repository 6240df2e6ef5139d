/**
 * The age labels the client pages show for a child. Every page computes the
 * age in months as the `ageInMonths` formula does (the day of the month
 * plays no part); the child pages and the certificate then show months
 * under a year and years with the remaining months above, the patient list
 * and the admin dashboard whole years only.
 */
module AgeLabel {
  import ChildModel

  /** What a label shows: a month count, whole years, or years and the remaining months. */
  datatype Label = Months(months: int) | Years(years: nat) | YearsAndMonths(years: nat, remaining: nat)

  /** The number of months a label reads as. */
  function Reading(l: Label): int
  {
    match l
    case Months(m) => m
    case Years(y) => 12 * y
    case YearsAndMonths(y, m) => 12 * y + m
  }

  /**
   * `calculateAge` of the child detail page, the child list and the
   * certificate: months below twelve (a negative age included), otherwise
   * years, followed by the remaining months only when there are some.
   */
  function Detailed(months: int): (r: Label)
    ensures r.Months? <==> months < 12
    ensures r.Years? ==> r.years >= 1
    ensures r.YearsAndMonths? ==> r.years >= 1 && 1 <= r.remaining < 12
  {
    if months < 12 then Months(months)
    else if months % 12 > 0 then YearsAndMonths(months / 12, months % 12)
    else Years(months / 12)
  }

  /** A detailed label reads as exactly the age it was made from. */
  lemma DetailedIsExact(months: int)
    ensures Reading(Detailed(months)) == months
  {
  }

  /** Different ages get different detailed labels. */
  lemma DetailedInjective(a: int, b: int)
    requires Detailed(a) == Detailed(b)
    ensures a == b
  {
    DetailedIsExact(a);
    DetailedIsExact(b);
  }

  /** `calculateAge` of the patient list and the admin dashboard: months below twelve, otherwise whole years. */
  function YearsOnly(months: int): (r: Label)
    ensures r.Months? <==> months < 12
    ensures !r.YearsAndMonths?
    ensures r.Years? ==> r.years >= 1
  {
    if months < 12 then Months(months) else Years(months / 12)
  }

  /** A years-only label rounds the age down to whole years and agrees with the detailed one on them. */
  lemma YearsOnlyRoundsDown(months: int)
    ensures Reading(YearsOnly(months)) <= months < Reading(YearsOnly(months)) + 12
    ensures months >= 12 ==> YearsOnly(months).years == Detailed(months).years
    ensures months < 12 || months % 12 == 0 ==> YearsOnly(months) == Detailed(months)
  {
  }

  /** The label of a child born in month `birth`, seen in month `today`. */
  function ChildAge(birth: ChildModel.YearMonth, today: ChildModel.YearMonth): (r: Label)
    ensures Reading(r) == ChildModel.AgeInMonths(birth, today)
  {
    DetailedIsExact(ChildModel.AgeInMonths(birth, today));
    Detailed(ChildModel.AgeInMonths(birth, today))
  }
}
