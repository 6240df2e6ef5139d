/** A child enrolled by a parent (server/models/Child.js). */
module ChildModel {
  import opened Common

  datatype Gender = Male | Female

  /** The eight ABO/Rh groups and the empty string the schema also admits. */
  datatype BloodType = APos | ANeg | BPos | BNeg | ABPos | ABNeg | OPos | ONeg | Unknown

  datatype Child = Child(
    name: string,
    birthDate: int,
    gender: Gender,
    parent: Id,
    bloodType: Option<BloodType>,
    allergies: Option<string>,
    notes: Option<string>,
    isActive: bool,
    createdAt: int)

  function GenderName(g: Gender): string
  {
    match g
    case Male => "male"
    case Female => "female"
  }

  /** The schema's gender enum: exactly "male" and "female" are admitted, and it is required. */
  function ParseGender(s: string): (r: Option<Gender>)
    ensures r.Some? <==> s == "male" || s == "female"
  {
    if s == "male" then Some(Male) else if s == "female" then Some(Female) else None
  }

  lemma GenderRoundTrip(g: Gender, s: string)
    ensures ParseGender(GenderName(g)) == Some(g)
    ensures ParseGender(s).Some? ==> GenderName(ParseGender(s).value) == s
  {
  }

  function BloodTypeName(b: BloodType): string
  {
    match b
    case APos => "A+"
    case ANeg => "A-"
    case BPos => "B+"
    case BNeg => "B-"
    case ABPos => "AB+"
    case ABNeg => "AB-"
    case OPos => "O+"
    case ONeg => "O-"
    case Unknown => ""
  }

  /** The schema's blood-type enum. */
  function ParseBloodType(s: string): (r: Option<BloodType>)
    ensures r.Some? ==> BloodTypeName(r.value) == s
  {
    if s == "A+" then Some(APos) else if s == "A-" then Some(ANeg)
    else if s == "B+" then Some(BPos) else if s == "B-" then Some(BNeg)
    else if s == "AB+" then Some(ABPos) else if s == "AB-" then Some(ABNeg)
    else if s == "O+" then Some(OPos) else if s == "O-" then Some(ONeg)
    else if s == "" then Some(Unknown) else None
  }

  lemma BloodTypeRoundTrip(b: BloodType)
    ensures ParseBloodType(BloodTypeName(b)) == Some(b)
  {
  }

  /** A child as `Child.create` stores it: active unless told otherwise. */
  function NewChild(name: string, birthDate: int, gender: Gender, parent: Id, bloodType: Option<BloodType>,
                    allergies: Option<string>, notes: Option<string>, now: int): (c: Child)
    ensures c.isActive && c.parent == parent && c.birthDate == birthDate && c.createdAt == now
  {
    Child(name, birthDate, gender, parent, bloodType, allergies, notes, true, now)
  }

  /** The year and month (0-11) of a date, as `getFullYear()` and `getMonth()` give them. */
  datatype YearMonth = YearMonth(year: int, month: int)

  predicate ValidMonth(d: YearMonth)
  {
    0 <= d.month < 12
  }

  predicate MonthBefore(a: YearMonth, b: YearMonth)
  {
    a.year < b.year || (a.year == b.year && a.month < b.month)
  }

  /** The `ageInMonths` virtual: the day of the month plays no part. */
  function AgeInMonths(birth: YearMonth, today: YearMonth): int
  {
    (today.year - birth.year) * 12 + today.month - birth.month
  }

  /** The age is negative exactly when today's month is before the birth month, and 0 in the birth month. */
  lemma {:induction false} AgeSign(birth: YearMonth, today: YearMonth)
    requires ValidMonth(birth) && ValidMonth(today)
    ensures AgeInMonths(birth, today) < 0 <==> MonthBefore(today, birth)
    ensures AgeInMonths(birth, today) == 0 <==> today == birth
  {
    var dy := today.year - birth.year;
    if dy > 0 {
      assert dy * 12 >= 12;
    } else if dy < 0 {
      assert dy * 12 <= -12;
    }
  }

  /** The month after `d`. */
  function NextMonth(d: YearMonth): YearMonth
  {
    if d.month == 11 then YearMonth(d.year + 1, 0) else YearMonth(d.year, d.month + 1)
  }

  /** Each calendar month adds exactly one to the age, across year ends too. */
  lemma AgeNextMonth(birth: YearMonth, today: YearMonth)
    requires ValidMonth(today)
    ensures AgeInMonths(birth, NextMonth(today)) == AgeInMonths(birth, today) + 1
  {
  }

  /** Whether the caller may see and change a child: a parent only their own. */
  predicate CanAccess(caller: Actor, child: Child)
  {
    caller.role == Parent ==> child.parent == caller.id
  }
}
